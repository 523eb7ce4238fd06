// The command line: what a faketime offset and a list of clock names mean.
module Offset {
  import opened DateText
  import opened Int64
  import opened DateParser
  import opened DateRuns
  import opened DateRetry

  const SECOND: int := 1_000_000_000
  const MINUTE: int := 60 * SECOND
  const HOUR: int := 60 * MINUTE

  // ---------------------------------------------------------------- offsets

  /** strconv.Atoi: an optional sign, decimal digits, and the range of int64. */
  function Atoi(s: string): (r: Option<int>)
    ensures r.Some? ==> InInt64(r.value)
  {
    var signed := s != "" && (s[0] == '+' || s[0] == '-');
    var digits := if signed then s[1..] else s;
    if digits == "" || !AllDigits(digits) then None
    else
      var v := if signed && s[0] == '-' then 0 - Decimal(digits) else Decimal(digits);
      if InInt64(v) then Some(v) else None
  }

  /** What CalculateOffset answers: a duration in nanoseconds; an absolute date, whose
      distance from the wall clock is not modelled; or no offset at all. */
  datatype Answer = Duration(nanos: int) | AbsoluteDate | Unparsable

  /** The relative branch.  Every multiplication is Go's, on 64 bits. */
  function Relative(s: string): Answer
    requires s != ""
  {
    var lower := ToLower(s);
    var unit := lower[|lower| - 1];
    var value := match Atoi(lower)
                 case Some(v) => Some(v)
                 case None => Atoi(lower[..|lower| - 1]);
    match value
    case None => Unparsable
    case Some(v) =>
      Duration(
        if unit == 'm' then Wrap64(v * MINUTE)
        else if unit == 'h' then Wrap64(v * HOUR)
        else if unit == 'd' then Wrap64(Wrap64(v * 24) * HOUR)
        else if unit == 'y' then Wrap64(Wrap64(Wrap64(v * 365) * 24) * HOUR)
        else Wrap64(v * SECOND))
  }

  function CalculateOffset(s: string, lib: Lib): Answer {
    if s == "" || s == "0" || s == "null" then Duration(0)
    else
      var r := ParseTime(s, NoLoc, DEFAULTS, lib);
      if r.err.None? && r.x.Some? && Parse(r.x.value, lib).Time? then AbsoluteDate else Relative(s)
  }

  /** The nanoseconds in one unit; none is the empty unit, seconds. */
  function UnitNanos(unit: string): int {
    match ToLower(unit)
    case "m" => MINUTE
    case "h" => HOUR
    case "d" => 24 * HOUR
    case "y" => 365 * 24 * HOUR
    case _ => SECOND
  }

  predicate IsUnit(unit: string) {
    unit == "" || (|unit| == 1 && LowerChar(unit[0]) in "smhdy")
  }

  function Signed(sign: char, digits: string): int
    requires AllDigits(digits)
  {
    if sign == '-' then 0 - Decimal(digits) else Decimal(digits)
  }

  /** Wrapping a product step by step or once at the end is the same. */
  lemma WrapProduct(x: int, y: int, f: int)
    requires (x - y) % TWO64 == 0
    ensures Wrap64(x * f) == Wrap64(y * f)
  {
    var k := (x - y) / TWO64;
    assert x * f - y * f == (k * f) * TWO64;
    WrapShift(y * f, k * f);
  }

  lemma WrapShift(a: int, k: int)
    ensures Wrap64(a + k * TWO64) == Wrap64(a)
  {
    assert (a + TWO63 + k * TWO64) % TWO64 == (a + TWO63) % TWO64 by { ModShift(a + TWO63, k); }
  }

  lemma ModShift(a: int, k: int)
    ensures (a + k * TWO64) % TWO64 == a % TWO64
  {
    var q, r := a / TWO64, a % TWO64;
    assert a + k * TWO64 == (q + k) * TWO64 + r;
  }

  lemma DigitsLower(s: string)
    requires AllDigits(s)
    ensures ToLower(s) == s
  {}

  /** Text with a sign in front is no date, so it is read as an offset. */
  lemma SignIsNoDate(s: string, lib: Lib)
    requires |s| > 1 && (s[0] == '+' || s[0] == '-')
    ensures CalculateOffset(s, lib) == Relative(s)
  {
    hide Scan, Relative;
    NoStart(s, DEFAULTS.preferMonthFirst);
  }

  lemma AtoiSigned(sign: char, digits: string)
    requires (sign == '+' || sign == '-') && AllDigits(digits)
    ensures Atoi([sign] + digits) ==
            if digits != "" && InInt64(Signed(sign, digits)) then Some(Signed(sign, digits)) else None
  {
    assert ([sign] + digits)[1..] == digits;
  }

  lemma AtoiUnit(sign: char, digits: string, u: char)
    requires sign == '+' || sign == '-'
    requires !IsDigit(u)
    ensures Atoi([sign] + digits + [u]).None?
  {
    var s := [sign] + digits + [u];
    assert s[1..][|digits|] == u;
  }

  /** What the product of a year or day count wraps to. */
  lemma WrapSteps(v: int)
    ensures Wrap64(Wrap64(v * 24) * HOUR) == Wrap64(v * (24 * HOUR))
    ensures Wrap64(Wrap64(Wrap64(v * 365) * 24) * HOUR) == Wrap64(v * (365 * 24 * HOUR))
  {
    CongruentWrap(v * 24);
    WrapProduct(Wrap64(v * 24), v * 24, HOUR);
    assert v * 24 * HOUR == v * (24 * HOUR);
    CongruentWrap(v * 365);
    WrapProduct(Wrap64(v * 365), v * 365, 24);
    CongruentWrap(v * 365 * 24);
    WrapProduct(Wrap64(v * 365 * 24), v * 365 * 24, HOUR);
    assert v * 365 * 24 * HOUR == v * (365 * 24 * HOUR);
  }

  lemma CongruentWrap(x: int)
    ensures (Wrap64(x) - x) % TWO64 == 0
  {
    var d := (x - Wrap64(x)) / TWO64;
    assert Wrap64(x) - x == (-d) * TWO64;
    ModShift(0, -d);
  }

  lemma RelativeBare(sign: char, digits: string)
    requires (sign == '+' || sign == '-') && digits != "" && AllDigits(digits)
    ensures var v, w := Signed(sign, digits), Signed(sign, digits[..|digits| - 1]);
            Relative([sign] + digits) ==
              if InInt64(v) then Duration(Wrap64(v * SECOND))
              else if |digits| > 1 && InInt64(w) then Duration(Wrap64(w * SECOND))
              else Unparsable
  {
    hide Decimal, Wrap64, Atoi;
    var s := [sign] + digits;
    DigitsLower(digits);
    assert ToLower(s) == s;
    assert s[..|s| - 1] == [sign] + digits[..|digits| - 1];
    assert IsDigit(s[|s| - 1]);
    AtoiSigned(sign, digits);
    AtoiSigned(sign, digits[..|digits| - 1]);
  }

  lemma RelativeUnit(sign: char, digits: string, unit: string)
    requires (sign == '+' || sign == '-') && digits != "" && AllDigits(digits) && IsUnit(unit) && unit != ""
    ensures var v := Signed(sign, digits);
            Relative([sign] + digits + unit) ==
              if InInt64(v) then Duration(Wrap64(v * UnitNanos(unit))) else Unparsable
  {
    hide Decimal, Wrap64, Atoi;
    var s := [sign] + digits + unit;
    DigitsLower(digits);
    WrapSteps(Signed(sign, digits));
    var u := LowerChar(unit[0]);
    assert ToLower(unit) == [u];
    assert ToLower(s) == [sign] + digits + [u];
    assert ToLower(s)[..|s| - 1] == [sign] + digits;
    AtoiUnit(sign, digits, u);
    AtoiSigned(sign, digits);
  }

  /** What a signed decimal offset means.  A value beyond int64 is rejected when it has a
      unit; without one, its last digit is taken for the unit and dropped. */
  lemma OffsetMeaning(sign: char, digits: string, unit: string, lib: Lib)
    requires (sign == '+' || sign == '-') && digits != "" && AllDigits(digits) && IsUnit(unit)
    ensures var v := Signed(sign, digits);
            var w := Signed(sign, digits[..|digits| - 1]);
            CalculateOffset([sign] + digits + unit, lib) ==
              if InInt64(v) then Duration(Wrap64(v * UnitNanos(unit)))
              else if unit == "" && |digits| > 1 && InInt64(w) then Duration(Wrap64(w * SECOND))
              else Unparsable
  {
    hide CalculateOffset, Relative, Decimal, Wrap64;
    SignIsNoDate([sign] + digits + unit, lib);
    if unit == "" {
      assert [sign] + digits + unit == [sign] + digits;
      RelativeBare(sign, digits);
    } else {
      RelativeUnit(sign, digits, unit);
    }
  }

  /** The units in nanoseconds, for small and capital letters. */
  lemma UnitsAre(unit: string)
    requires IsUnit(unit)
    ensures UnitNanos(unit) == if unit == "m" || unit == "M" then 60_000_000_000
                               else if unit == "h" || unit == "H" then 3_600_000_000_000
                               else if unit == "d" || unit == "D" then 86_400_000_000_000
                               else if unit == "y" || unit == "Y" then 31_536_000_000_000_000
                               else 1_000_000_000
  {
    if unit != "" { assert ToLower(unit) == [LowerChar(unit[0])]; }
  }

  /** Nothing, zero and null are no offset. */
  lemma NoOffset(lib: Lib)
    ensures CalculateOffset("", lib) == CalculateOffset("0", lib) == CalculateOffset("null", lib) == Duration(0)
  {}

  /** The offset is the product of number and unit exactly when that fits int64. */
  lemma OffsetIsExact(sign: char, digits: string, unit: string, lib: Lib)
    requires (sign == '+' || sign == '-') && digits != "" && AllDigits(digits) && IsUnit(unit)
    ensures var nanos := Signed(sign, digits) * UnitNanos(unit);
            CalculateOffset([sign] + digits + unit, lib) == Duration(nanos) <==> InInt64(nanos)
    ensures var factor := if unit == "m" || unit == "M" then 60_000_000_000
                          else if unit == "h" || unit == "H" then 3_600_000_000_000
                          else if unit == "d" || unit == "D" then 86_400_000_000_000
                          else if unit == "y" || unit == "Y" then 31_536_000_000_000_000
                          else 1_000_000_000;
            var nanos := (if sign == '-' then -1 else 1) * Decimal(digits) * factor;
            CalculateOffset([sign] + digits + unit, lib) == Duration(nanos) <==> InInt64(nanos)
  {
    hide CalculateOffset, Decimal, UnitNanos;
    OffsetMeaning(sign, digits, unit, lib);
    UnitsAre(unit);
    var v := Signed(sign, digits);
    assert UnitNanos(unit) >= SECOND;
    assert InInt64(v * UnitNanos(unit)) ==> InInt64(v);
  }

  // ---------------------------------------------------------------- offsets without a sign

  /** A digit, then digits and unit letters: nothing that ends the first number of a date. */
  predicate Unbroken(s: string) {
    && s != "" && IsDigit(s[0])
    && forall k :: 0 <= k < |s| ==> IsDigit(s[k]) || LowerChar(s[k]) in "smhdy"
  }

  lemma {:induction false} RunUnbroken(p: Parser, pref: bool, s: string, i: nat)
    requires DateInv(p, s, i) && Unbroken(s) && 1 <= i <= |s| && p.stateDate.DateDigit?
    ensures RunDate(p, pref, s, i) == Break(p, s, |s|)
    decreases |s| - i
  {
    hide OnDigitSlash1, OnDigitColon1, OnDigitDot1, Roles, Write, DateFlowInv;
    if i < |s| { RunUnbroken(p, pref, s, i + 1); }
  }

  /** The one pass over such a string: its length alone says what it is read as. */
  lemma ScanUnbroken(s: string, pref: bool)
    requires Unbroken(s)
    ensures Scan(s, pref) == Done(DigitFinish(NewParser(|s|).(stateDate := DateDigit), s), s)
  {
    hide RunDate, ScanTime, Roles, Write, Either, DigitFinish;
    var p := NewParser(|s|);
    FirstDigit(s, pref);
    RunUnbroken(p.(stateDate := DateDigit), pref, s, 1);
  }

  lemma FirstDigit(s: string, pref: bool)
    requires Unbroken(s)
    ensures DateInv(NewParser(|s|).(stateDate := DateDigit), s, 1)
    ensures RunDate(NewParser(|s|), pref, s, 0) == RunDate(NewParser(|s|).(stateDate := DateDigit), pref, s, 1)
  {
    hide DateStep;
    DigitStarts(NewParser(|s|), pref, s);
  }

  /** The layout such a string of n bytes is given. */
  function BareLayout(n: nat): Option<string> {
    if n == 4 then Some("2006") else if n == 8 then Some("20060102")
    else if n == 14 then Some("20060102150405") else None
  }

  /** Whether such a string is a date: of 4, 8 or 14 bytes if the library takes it, otherwise
      if it is a Unix time that fits. */
  predicate ReadAsDate(s: string, lib: Lib) {
    match BareLayout(|s|)
    case Some(layout) => lib(layout, s, NoLoc).Time?
    case None => Stamp(s) && Decimal(s) < TWO63
  }

  lemma BareParse(s: string, lib: Lib)
    requires Unbroken(s)
    ensures var r := ParseTime(s, NoLoc, DEFAULTS, lib);
            (r.err.None? && r.x.Some? && Parse(r.x.value, lib).Time?) <==> ReadAsDate(s, lib)
  {
    hide Scan, Decimal, Unbroken, ParsedLayout, ParsedInput;
    ScanUnbroken(s, true);
    var r := ParseTime(s, NoLoc, DEFAULTS, lib);
    if BareLayout(|s|).Some? { BareAsked(s, BareLayout(|s|).value, r.x.value); }
  }

  lemma BareAsked(s: string, layout: string, x: Parsed)
    requires Sound(x) && x == Parsed(NewParser(|s|).(stateDate := DateDigit, layout := Lit(layout)), s, s, NoLoc, true)
    ensures ParsedLayout(x) == layout && ParsedInput(x) == s
  {}

  lemma UnsignedRelative(digits: string, unit: string)
    requires digits != "" && AllDigits(digits) && IsUnit(unit)
    ensures Relative(digits + unit) == Relative(['+'] + digits + unit)
  {
    hide Decimal, Wrap64;
    var s, t := digits + unit, ['+'] + digits + unit;
    var a, b := ToLower(s), ToLower(t);
    assert b == ['+'] + a;
    assert b[..|b| - 1] == ['+'] + a[..|a| - 1];
    assert IsDigit(digits[0]) && a[0] == digits[0];
    PlusIsNothing(a);
    if |a| > 1 { PlusIsNothing(a[..|a| - 1]); }
  }

  lemma PlusIsNothing(s: string)
    requires s != "" && s[0] != '+' && s[0] != '-'
    ensures Atoi(['+'] + s) == Atoi(s)
  {
    assert (['+'] + s)[1..] == s;
  }

  lemma UnbrokenOffset(digits: string, unit: string)
    requires digits != "" && AllDigits(digits) && IsUnit(unit)
    ensures Unbroken(digits + unit)
  {}

  /** What a decimal offset without a sign means: a date when it reads as one, and so "3600"
      is a year if the library takes it; otherwise what it would mean with a plus in front. */
  lemma UnsignedMeaning(digits: string, unit: string, lib: Lib)
    requires digits != "" && AllDigits(digits) && IsUnit(unit) && digits + unit != "0"
    ensures CalculateOffset(digits + unit, lib) ==
            if ReadAsDate(digits + unit, lib) then AbsoluteDate else CalculateOffset(['+'] + digits + unit, lib)
  {
    hide Relative, ParseTime, Parse, ReadAsDate, Unbroken, ToLower;
    UnbrokenOffset(digits, unit);
    BareParse(digits + unit, lib);
    UnsignedRelative(digits, unit);
    SignIsNoDate(['+'] + digits + unit, lib);
    assert (digits + unit)[0] == digits[0];
  }

  // ---------------------------------------------------------------- clock ids

  /** The clocks by their ids, as in uapi/linux/time.h. */
  const CLOCKS: seq<string> := [
    "CLOCK_REALTIME", "CLOCK_MONOTONIC", "CLOCK_PROCESS_CPUTIME_ID", "CLOCK_THREAD_CPUTIME_ID",
    "CLOCK_MONOTONIC_RAW", "CLOCK_REALTIME_COARSE", "CLOCK_MONOTONIC_COARSE", "CLOCK_BOOTTIME",
    "CLOCK_REALTIME_ALARM", "CLOCK_BOOTTIME_ALARM"]

  /** The bit of a clock name. */
  function ClockBit(id: string): (r: Option<nat>)
    ensures r.Some? ==> r.value < 10
  {
    match id
    case "CLOCK_REALTIME" => Some(0)
    case "CLOCK_MONOTONIC" => Some(1)
    case "CLOCK_PROCESS_CPUTIME_ID" => Some(2)
    case "CLOCK_THREAD_CPUTIME_ID" => Some(3)
    case "CLOCK_MONOTONIC_RAW" => Some(4)
    case "CLOCK_REALTIME_COARSE" => Some(5)
    case "CLOCK_MONOTONIC_COARSE" => Some(6)
    case "CLOCK_BOOTTIME" => Some(7)
    case "CLOCK_REALTIME_ALARM" => Some(8)
    case "CLOCK_BOOTTIME_ALARM" => Some(9)
    case _ => None
  }

  predicate Names(ids: seq<string>, k: nat) {
    exists i :: 0 <= i < |ids| && ClockBit(ids[i]) == Some(k)
  }

  /** EncodeClkIds: the mask is the sum of the powers of two of the clocks named, or there is
      an unknown name among them. */
  method EncodeClkIds(clkIds: seq<string>) returns (r: Option<nat>)
    ensures r.None? <==>
              exists i :: 0 <= i < |clkIds| && clkIds[i] !in ["CLOCK_REALTIME", "CLOCK_MONOTONIC",
                "CLOCK_PROCESS_CPUTIME_ID", "CLOCK_THREAD_CPUTIME_ID", "CLOCK_MONOTONIC_RAW", "CLOCK_REALTIME_COARSE",
                "CLOCK_MONOTONIC_COARSE", "CLOCK_BOOTTIME", "CLOCK_REALTIME_ALARM", "CLOCK_BOOTTIME_ALARM"]
    ensures r.Some? ==>
              r.value ==
              (if "CLOCK_REALTIME" in clkIds then 1 else 0)
              + (if "CLOCK_MONOTONIC" in clkIds then 2 else 0)
              + (if "CLOCK_PROCESS_CPUTIME_ID" in clkIds then 4 else 0)
              + (if "CLOCK_THREAD_CPUTIME_ID" in clkIds then 8 else 0)
              + (if "CLOCK_MONOTONIC_RAW" in clkIds then 16 else 0)
              + (if "CLOCK_REALTIME_COARSE" in clkIds then 32 else 0)
              + (if "CLOCK_MONOTONIC_COARSE" in clkIds then 64 else 0)
              + (if "CLOCK_BOOTTIME" in clkIds then 128 else 0)
              + (if "CLOCK_REALTIME_ALARM" in clkIds then 256 else 0)
              + (if "CLOCK_BOOTTIME_ALARM" in clkIds then 512 else 0)
    ensures r.Some? ==> r.value < TWO64 && forall k: nat :: Bit(r.value, k) <==> k < 10 && CLOCKS[k] in clkIds
  {
    hide ClockBit, Names, Or, Bit;
    KnownClocks(clkIds);
    NoNames(clkIds[..0]);
    var mask: nat := 0;
    forall k: nat ensures !Bit(0, k) { NoBits(k); }
    for j := 0 to |clkIds|
      invariant forall i :: 0 <= i < j ==> ClockBit(clkIds[i]).Some?
      invariant mask < Pow2(10)
      invariant forall k: nat :: Bit(mask, k) <==> Names(clkIds[..j], k)
    {
      match ClockBit(clkIds[j]) {
        case None => return None;
        case Some(b) =>
          forall k: nat ensures Bit(Or(mask, Pow2(b)), k) <==> Names(clkIds[..j + 1], k) {
            BitOr(mask, Pow2(b), k);
            BitPow2(b, k);
            NamesOneMore(clkIds, j, k);
          }
          BelowTen(b);
          OrBelow(mask, Pow2(b), 10);
          mask := Or(mask, Pow2(b));
      }
    }
    assert clkIds[..|clkIds|] == clkIds;
    assert Pow2(10) == 1024 by { TenBits(); }
    SumOfNames(mask, clkIds);
    return Some(mask);
  }

  lemma ClockBitIs(id: string)
    ensures ClockBit(id).Some? <==> id in CLOCKS
    ensures forall k: nat :: ClockBit(id) == Some(k) <==> k < 10 && CLOCKS[k] == id
  {}

  lemma KnownClocks(ids: seq<string>)
    ensures forall i :: 0 <= i < |ids| ==> (ClockBit(ids[i]).Some? <==> ids[i] in CLOCKS)
    ensures forall k: nat :: Names(ids, k) <==> k < 10 && CLOCKS[k] in ids
  {
    hide ClockBit;
    forall i | 0 <= i < |ids| ensures ClockBit(ids[i]).Some? <==> ids[i] in CLOCKS { ClockBitIs(ids[i]); }
    forall k: nat ensures Names(ids, k) <==> k < 10 && CLOCKS[k] in ids {
      forall i | 0 <= i < |ids| ensures ClockBit(ids[i]) == Some(k) <==> k < 10 && CLOCKS[k] == ids[i] { ClockBitIs(ids[i]); }
    }
  }

  lemma NoNames(ids: seq<string>)
    requires ids == []
    ensures forall k: nat :: !Names(ids, k)
  {}

  lemma LowBit(m: nat)
    ensures m == 2 * (m / 2) + (if Bit(m, 0) then 1 else 0)
    ensures forall k: nat :: k > 0 ==> (Bit(m, k) <==> Bit(m / 2, k - 1))
  {}

  lemma FiveBits(m: nat)
    ensures m == (if Bit(m, 0) then 1 else 0) + (if Bit(m, 1) then 2 else 0) + (if Bit(m, 2) then 4 else 0)
                 + (if Bit(m, 3) then 8 else 0) + (if Bit(m, 4) then 16 else 0) + 32 * (m / 32)
    ensures forall k: nat :: Bit(m / 32, k) <==> Bit(m, k + 5)
  {
    hide Bit;
    var a := m / 2;
    var b := a / 2;
    var c := b / 2;
    var d := c / 2;
    assert d / 2 == m / 32;
    LowBit(m);
    LowBit(a);
    LowBit(b);
    LowBit(c);
    LowBit(d);
  }

  /** A number of ten bits is the sum of the powers of two whose bits are set. */
  lemma SumOfBits(m: nat)
    requires m < 1024
    ensures m == (if Bit(m, 0) then 1 else 0) + (if Bit(m, 1) then 2 else 0) + (if Bit(m, 2) then 4 else 0)
                 + (if Bit(m, 3) then 8 else 0) + (if Bit(m, 4) then 16 else 0) + (if Bit(m, 5) then 32 else 0)
                 + (if Bit(m, 6) then 64 else 0) + (if Bit(m, 7) then 128 else 0) + (if Bit(m, 8) then 256 else 0)
                 + (if Bit(m, 9) then 512 else 0)
  {
    hide Bit;
    FiveBits(m);
    FiveBits(m / 32);
  }

  lemma SumOfNames(mask: nat, clkIds: seq<string>)
    requires mask < 1024 && forall k: nat :: Bit(mask, k) <==> k < 10 && CLOCKS[k] in clkIds
    ensures mask ==
              (if "CLOCK_REALTIME" in clkIds then 1 else 0)
              + (if "CLOCK_MONOTONIC" in clkIds then 2 else 0)
              + (if "CLOCK_PROCESS_CPUTIME_ID" in clkIds then 4 else 0)
              + (if "CLOCK_THREAD_CPUTIME_ID" in clkIds then 8 else 0)
              + (if "CLOCK_MONOTONIC_RAW" in clkIds then 16 else 0)
              + (if "CLOCK_REALTIME_COARSE" in clkIds then 32 else 0)
              + (if "CLOCK_MONOTONIC_COARSE" in clkIds then 64 else 0)
              + (if "CLOCK_BOOTTIME" in clkIds then 128 else 0)
              + (if "CLOCK_REALTIME_ALARM" in clkIds then 256 else 0)
              + (if "CLOCK_BOOTTIME_ALARM" in clkIds then 512 else 0)
  {
    hide Bit;
    SumOfBits(mask);
  }

  lemma NamesOneMore(ids: seq<string>, j: nat, k: nat)
    requires j < |ids|
    ensures Names(ids[..j + 1], k) <==> Names(ids[..j], k) || ClockBit(ids[j]) == Some(k)
  {
    hide ClockBit;
    var a, b := ids[..j + 1], ids[..j];
    assert forall i :: 0 <= i < j ==> a[i] == b[i];
    if Names(b, k) {
      var i :| 0 <= i < |b| && ClockBit(b[i]) == Some(k);
      assert ClockBit(a[i]) == Some(k);
    }
    if ClockBit(ids[j]) == Some(k) { assert ClockBit(a[j]) == Some(k); }
  }

  lemma TenBits()
    ensures Pow2(10) == 1024
  {
    assert Pow2(5) == 32;
  }

  lemma {:induction false} BelowTen(b: nat)
    requires b < 10
    ensures Pow2(b) < Pow2(10)
  {
    PowGrows(b, 10);
  }

  lemma {:induction false} PowGrows(a: nat, b: nat)
    requires a < b
    ensures Pow2(a) < Pow2(b)
    decreases b
  {
    if a < b - 1 { PowGrows(a, b - 1); }
  }
}

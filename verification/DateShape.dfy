// ParseDateFormat's promise: the layout found for a string fits every string of its
// shape.  It holds unless the parse ends in reading a Unix time, and then it fails.
module DateShape {
  import opened Int64
  import opened DateText
  import opened DateParser
  import opened DateAgree
  import opened DateRuns
  import opened DateRestart

  lemma ScanTimeHandsOn(p: Parser, s: string, i: nat)
    requires DateEndInv(p, s, i) && p.stateTime.TimeStart? && !Weekday(s)
    ensures var a := ScanTime(p, s, i);
            a.Again? ==> a.keepOptions && !Weekday(a.s) && !AllDigits(a.s) && Dotted(s, a.s)
  {
    hide RunTime, TimeFinish, Finish, IsDay, ToLower;
    RunTimeDots(p, s, s, SkipSpaces(s, if i < |s| then i + 1 else i));
    var a := ScanTime(p, s, i);
    if a.Again? { DottedWeekday(s, a.s); }
  }

  /** A pass hands on the rest after a weekday, or a string that is no bare number
      and starts with no weekday. */
  lemma ScanHandsOn(s: string, pref: bool)
    ensures var a := Scan(s, pref);
            if Weekday(s) then a == Again(s[4..], false, s)
            else a.Again? ==> && a.keepOptions && !Weekday(a.s) && !AllDigits(a.s)
                              && |s| > 0 && |a.s| > 0 && (IsLetter(s[0]) ==> IsLetter(a.s[0]))
  {
    hide RunDate, ScanTime, Finish, IsDay, ToLower;
    RunDateBehind(NewParser(|s|), pref, s, 0);
    var f := RunDate(NewParser(|s|), pref, s, 0);
    if f.Restart? && f.keepOptions {
      assert !IsDigit(f.s[0]);
    }
    if f.Break? {
      var p := f.p.CoalesceDate(f.i);
      if p.stateTime.TimeStart? { ScanTimeHandsOn(p, s, f.i); }
    }
  }

  /** The string a pass leaves behind, which the deferred retry would parse: no weekday has
      come to its front, nor has it become a bare number. */
  lemma ScanLeaves(s: string, pref: bool)
    requires !Weekday(s)
    ensures var d := Scan(s, pref).ds; d == s || (!Weekday(d) && !AllDigits(d))
  {
    hide RunDate, ScanTime, Finish, IsDay, ToLower;
    ScanHandsOn(s, pref);
    var f := RunDate(NewParser(|s|), pref, s, 0);
    if f.Break? && f.p.CoalesceDate(f.i).stateTime.TimeStart? {
      CoalesceDateInv(f.p, s, f.i);
      ScanTimeLeaves(f.p.CoalesceDate(f.i), s, f.i);
    }
  }

  lemma ScanTimeLeaves(p: Parser, s: string, i: nat)
    requires DateEndInv(p, s, i) && p.stateTime.TimeStart? && !Weekday(s)
    ensures var d := ScanTime(p, s, i).ds; d == s || (!Weekday(d) && !AllDigits(d))
  {
    hide RunTime, TimeFinish, Finish, IsDay, ToLower;
    RunTimeDots(p, s, s, SkipSpaces(s, if i < |s| then i + 1 else i));
    var d := ScanTime(p, s, i).ds;
    DottedWeekday(s, d);
    if d != s {
      var k :| 0 <= k < |s| && d[k] != s[k];
      assert !IsDigit(d[k]);
    }
  }

  // ---------------------------------------------------------------- shape invariance

  ghost predicate SameOutcome(a: Outcome, b: Outcome) {
    && a.err == b.err && a.x.Some? == b.x.Some?
    && (a.x.Some? ==>
          var x, y := a.x.value, b.x.value;
          && x.p == y.p && SameShape(x.ds, y.ds) && SameShape(x.input, y.input)
          && x.loc == y.loc && x.preferMonthFirst == y.preferMonthFirst)
  }

  /** What the deferred functions of the successive calls, outermost first, hear from the
      library: nothing, or whether the month is out of range. */
  function Verdicts(s: string, loc: Loc, o: Options, lib: Lib): seq<Option<bool>>
    decreases |s|, Commas(s)
  {
    if !o.retry then []
    else
      hide Scan;
      var pass := Scan(s, o.preferMonthFirst);
      var r := Straight(s, loc, o, lib);
      [if r.x.Some? && r.x.value.p.ambiguousMD then Some(Parse(r.x.value, lib) == Failure(true)) else None]
      + if pass.Again? && pass.keepOptions then Verdicts(pass.s, loc, o, lib) else []
  }

  /** parseTime without its deferred function: one pass, and the call it may return. */
  function Straight(s: string, loc: Loc, o: Options, lib: Lib): (r: Outcome)
    ensures r.x.Some? ==> Sound(r.x.value)
  {
    hide Scan;
    var pass := Scan(s, o.preferMonthFirst);
    if pass.Again? then ParseTime(pass.s, loc, if pass.keepOptions then o else DEFAULTS, lib)
    else Wrap(pass.res, pass.ds, s, loc, o.preferMonthFirst)
  }

  /** parseTime with its deferred function put back. */
  lemma Deferred(s: string, loc: Loc, o: Options, lib: Lib)
    ensures var r := Straight(s, loc, o, lib);
            ParseTime(s, loc, o, lib) ==
            if o.retry && r.x.Some? && r.x.value.p.ambiguousMD && Parse(r.x.value, lib) == Failure(true)
            then Outcome(ParseTime(Scan(s, o.preferMonthFirst).ds, Local, Options(!r.x.value.preferMonthFirst, false), lib).x, r.err)
            else r
  {
    hide Scan, Sound;
  }

  /** Whether digits decide the outcome: a Unix time, after any weekdays. */
  predicate StampAfterWeekdays(s: string) { Stamp(AfterWeekdays(s)) }

  lemma NoStampNow(s: string)
    requires !StampAfterWeekdays(s)
    ensures !Stamp(s)
  {
    hide IsDay, ToLower;
    if Weekday(s) { assert !IsDigit(s[3]); }
  }

  /** A pass makes no Unix time of what was none. */
  lemma NoStampNext(s: string, pref: bool)
    requires !StampAfterWeekdays(s)
    ensures var a := Scan(s, pref); (a.Again? ==> !StampAfterWeekdays(a.s)) && !StampAfterWeekdays(a.ds)
  {
    hide Scan, IsDay, ToLower;
    ScanHandsOn(s, pref);
    if !Weekday(s) { ScanLeaves(s, pref); }
  }

  /** The verdict at this call, and those at the call it returns. */
  lemma VerdictsSplit(s: string, loc: Loc, o: Options, lib: Lib)
    requires o.retry
    ensures var a, r, v := Scan(s, o.preferMonthFirst), Straight(s, loc, o, lib), Verdicts(s, loc, o, lib);
            && |v| >= 1
            && v[0] == (if r.x.Some? && r.x.value.p.ambiguousMD then Some(Parse(r.x.value, lib) == Failure(true)) else None)
            && (a.Again? ==> v[1..] == Verdicts(a.s, loc, if a.keepOptions then o else DEFAULTS, lib))
  {
    hide Scan, Straight;
  }

  /** Two strings of one shape, about which the deferred functions hear the same, come out
      alike. */
  lemma {:induction false} ShapeFixesOutcome(s: string, t: string, loc: Loc, o: Options, lib: Lib)
    requires SameShape(s, t) && !StampAfterWeekdays(s)
    requires Verdicts(s, loc, o, lib) == Verdicts(t, loc, o, lib)
    ensures SameOutcome(ParseTime(s, loc, o, lib), ParseTime(t, loc, o, lib))
    decreases if o.retry then 1 else 0, |s|, Commas(s)
  {
    hide Scan, ParseTime, Verdicts, Commas, SameShape, Parse, Sound, StampAfterWeekdays, Stamp;
    NoStampNow(s);
    ScanAgrees(s, t, o.preferMonthFirst);
    NoStampNext(s, o.preferMonthFirst);
    var a, b := Scan(s, o.preferMonthFirst), Scan(t, o.preferMonthFirst);
    if o.retry {
      VerdictsSplit(s, loc, o, lib);
      VerdictsSplit(t, loc, o, lib);
    }
    if a.Again? {
      var next := if a.keepOptions then o else DEFAULTS;
      if !next.retry { NoVerdicts(a.s, b.s, loc, next, lib); }
      ShapeFixesOutcome(a.s, b.s, loc, next, lib);
    }
    Deferred(s, loc, o, lib);
    Deferred(t, loc, o, lib);
    var x := Straight(s, loc, o, lib);
    if o.retry && x.x.Some? {
      var flipped := Options(!x.x.value.preferMonthFirst, false);
      NoVerdicts(a.ds, b.ds, Local, flipped, lib);
      ShapeFixesOutcome(a.ds, b.ds, Local, flipped, lib);
    }
  }

  lemma NoVerdicts(s: string, t: string, loc: Loc, o: Options, lib: Lib)
    requires !o.retry
    ensures Verdicts(s, loc, o, lib) == Verdicts(t, loc, o, lib)
  {}

  // ---------------------------------------------------------------- and its failure

  lemma {:induction false} RunDigits(p: Parser, pref: bool, s: string, i: nat)
    requires DateInv(p, s, i) && AllDigits(s) && 1 <= i <= |s| && p.stateDate.DateDigit?
    ensures RunDate(p, pref, s, i) == Break(p, s, |s|)
    decreases |s| - i
  {
    hide OnDigitSlash1, OnDigitColon1, OnDigitDot1, Roles, Write, DateFlowInv;
    if i < |s| { RunDigits(p, pref, s, i + 1); }
  }

  lemma ScanDigits(s: string, pref: bool)
    requires AllDigits(s) && s != ""
    ensures RunDate(NewParser(|s|), pref, s, 0) == Break(NewParser(|s|).(stateDate := DateDigit), s, |s|)
  {
    var p := NewParser(|s|);
    var q := p.(stateDate := DateDigit);
    assert DateAt(p, s, 0) && DateInv(q, s, 1);
    RunDigits(q, pref, s, 1);
    assert DateStep(p, pref, s, 0) == Next(q, s, 1);
  }

  /** Digits are read by their place. */
  lemma {:induction false} DecimalJoins(a: string, b: string, power: nat)
    requires AllDigits(a) && AllDigits(b) && power == TenTo(|b|)
    ensures AllDigits(a + b) && Decimal(a + b) == Decimal(a) * power + Decimal(b)
  {
    if b == "" {
      assert a + b == a;
    } else {
      var c := b[..|b| - 1];
      DecimalJoins(a, c, TenTo(|c|));
      assert (a + b)[..|a + b| - 1] == a + c;
      assert Decimal(a) * power == Decimal(a) * TenTo(|c|) * 10;
    }
  }

  function TenTo(n: nat): nat { if n == 0 then 1 else 10 * TenTo(n - 1) }

  lemma OneDigit(c: char)
    requires IsDigit(c)
    ensures Decimal([c]) == (c - '0') as nat
  {
    assert Decimal("") == 0;
  }

  lemma ScanStamp(s: string, pref: bool)
    requires Stamp(s)
    ensures var a := Scan(s, pref);
            a.Done? && (a.res.p.Some? ==> !a.res.p.value.ambiguousMD)
            && (Decimal(s) < TWO63 ==> a.res.p.Some? && a.res.p.value.t == UnixStamp(s))
  {
    hide RunDate, ScanTime, Roles, Write, Either;
    ScanDigits(s, pref);
  }

  /** A bare number of 10, 13, 16 or 19 digits is read as a Unix time if it fits. */
  lemma StampIsTime(s: string, loc: Loc, o: Options, lib: Lib)
    requires Stamp(s) && Decimal(s) < TWO63
    ensures var r := ParseTime(s, loc, o, lib); r.x.Some? && r.x.value.p.t == UnixStamp(s)
    ensures var r := ParseTime(s, loc, o, lib);
            r.x.Some? && r.x.value.p.t
            == Some(if |s| == 10 then Decimal(s) * 1_000_000_000
                    else Wrap64(Decimal(s) * (if |s| == 13 then 1_000_000 else if |s| == 16 then 1000 else 1)))
  {
    hide Scan, UnixStamp;
    ScanStamp(s, o.preferMonthFirst);
    StampValue(s);
  }

  lemma StampValue(s: string)
    requires Stamp(s) && Decimal(s) < TWO63
    ensures UnixStamp(s) == Some(if |s| == 10 then Decimal(s) * 1_000_000_000
                                 else Wrap64(Decimal(s) * (if |s| == 13 then 1_000_000 else if |s| == 16 then 1000 else 1)))
  {}

  lemma FinishTime(p: Parser, ds: string, i: int)
    requires Finishable(p) && p.t.None?
    ensures var r := Finish(p, ds, i);
            r.p.Some? && r.p.value.t.Some? ==> p.stateDate.DateDigit? && r.p.value.t == UnixStamp(ds) && r.p.value.layout == p.layout
  {
    hide Write, Either, Roles, UnixStamp;
  }

  lemma ScanTimeReadsNoStamp(p: Parser, s: string, i: nat)
    requires DateEndInv(p, s, i) && p.stateTime.TimeStart?
    ensures var a := ScanTime(p, s, i); a.Done? && a.res.p.Some? ==> a.res.p.value.t.None?
  {
    hide RunTime, TimeFinish, Finish, UnixStamp, Write, Either, Zeros;
    var f := RunTime(p, s, SkipSpaces(s, if i < |s| then i + 1 else i));
    if f.Break? {
      var g := TimeFinish(f.p, f.ds, f.i);
      if g.Break? { FinishTime(g.p.CoalesceTime(g.i), f.ds, g.i); }
    }
  }

  lemma ScanReadsStamp(s: string, pref: bool)
    ensures var a := Scan(s, pref);
            a.Done? && a.res.p.Some? && a.res.p.value.t.Some? ==>
              Stamp(s) && a.res.p.value.t == UnixStamp(s) && a.res.p.value.layout == Fresh(|s|)
  {
    hide RunDate, ScanTime, Finish, Write, Either;
    var f := RunDate(NewParser(|s|), pref, s, 0);
    if f.Break? {
      CoalesceDateInv(f.p, s, f.i);
      var p := f.p.CoalesceDate(f.i);
      if p.stateTime.TimeStart? { ScanTimeReadsNoStamp(p, s, f.i); }
      else {
        FinishTime(p, s, f.i);
        if AllDigits(s) && s != "" { ScanDigits(s, pref); }
      }
    }
  }

  /** Only a bare number is read as a Unix time, and then the layout is that number. */
  lemma {:induction false} TimeIsStamp(s: string, loc: Loc, o: Options, lib: Lib)
    ensures var r := ParseTime(s, loc, o, lib);
            r.x.Some? && r.x.value.p.t.Some? ==>
              && StampAfterWeekdays(s) && r.x.value.p.t == UnixStamp(AfterWeekdays(s))
              && Render(r.x.value.p.layout, r.x.value.input) == AfterWeekdays(s)
    decreases if o.retry then 1 else 0, |s|, Commas(s)
  {
    hide Scan, Commas, Sound, UnixStamp, Parse, IsDay, ToLower, ParseTime;
    var a := Scan(s, o.preferMonthFirst);
    ScanHandsOn(s, o.preferMonthFirst);
    ScanReadsStamp(s, o.preferMonthFirst);
    if a.Again? { TimeIsStamp(a.s, loc, if a.keepOptions then o else DEFAULTS, lib); }
    Deferred(s, loc, o, lib);
    var r := Straight(s, loc, o, lib);
    if StampAfterWeekdays(s) {
      StampIsNotAsked(s, loc, o, lib);
    } else {
      NoStampNext(s, o.preferMonthFirst);
      if o.retry && r.x.Some? { TimeIsStamp(a.ds, Local, Options(!r.x.value.preferMonthFirst, false), lib); }
    }
  }

  /** The digits 0...0d. */
  function Padded(n: nat, d: char): (r: string)
    requires n > 0 && IsDigit(d)
    ensures |r| == n && AllDigits(r) && Decimal(r) == (d - '0') as nat
  {
    PaddedValue(n, d);
    Zeros0(n - 1) + [d]
  }

  function Zeros0(n: nat): (r: string)
    ensures |r| == n && AllDigits(r)
  {
    seq(n, _ => '0')
  }

  lemma {:induction false} PaddedValue(n: nat, d: char)
    requires n > 0 && IsDigit(d)
    ensures AllDigits(Zeros0(n - 1) + [d]) && Decimal(Zeros0(n - 1) + [d]) == (d - '0') as nat
  {
    var r := Zeros0(n - 1) + [d];
    assert r[..n - 1] == Zeros0(n - 1);
    if n > 1 {
      PaddedValue(n - 1, '0');
      assert Zeros0(n - 1) == Zeros0(n - 2) + ['0'];
    } else {
      assert Zeros0(0) == "";
    }
  }

  /** A Unix time is not ambiguous, so nothing is asked about it. */
  lemma {:induction false} StampIsNotAsked(s: string, loc: Loc, o: Options, lib: Lib)
    requires StampAfterWeekdays(s)
    ensures var r := ParseTime(s, loc, o, lib);
            r == Straight(s, loc, o, lib) && (r.x.Some? ==> !r.x.value.p.ambiguousMD)
    ensures Verdicts(s, loc, o, lib) == if o.retry then [None] else []
  {
    hide Scan, IsDay, ToLower;
    ScanHandsOn(s, o.preferMonthFirst);
    if Weekday(s) { StampIsNotAsked(s[4..], loc, DEFAULTS, lib); }
    else { ScanStamp(s, o.preferMonthFirst); }
  }

  /** Where digits decide, some string of the same shape comes out differently. */
  lemma {:induction false} StampBreaksShape(s: string, loc: Loc, o: Options, lib: Lib) returns (t: string)
    requires StampAfterWeekdays(s)
    ensures SameShape(s, t) && Verdicts(s, loc, o, lib) == Verdicts(t, loc, o, lib)
    ensures !SameOutcome(ParseTime(s, loc, o, lib), ParseTime(t, loc, o, lib))
  {
    hide Scan, IsDay, ToLower, Verdicts, ParseTime, Parse, Sound;
    StampIsNotAsked(s, loc, o, lib);
    if Weekday(s) {
      var u := StampBreaksShape(s[4..], loc, DEFAULTS, lib);
      t := s[..4] + u;
      assert t[4..] == u && t[..3] == s[..3];
      ScanHandsOn(s, o.preferMonthFirst);
      ScanHandsOn(t, o.preferMonthFirst);
      SameShapeStamp(s[4..], u);
      StampIsNotAsked(t, loc, o, lib);
    } else {
      var a, b := Padded(|s|, '0'), Padded(|s|, '1');
      StampIsTime(a, loc, o, lib);
      StampIsTime(b, loc, o, lib);
      t := if SameOutcome(ParseTime(s, loc, o, lib), ParseTime(a, loc, o, lib)) then b else a;
      SameShapeStamp(s, t);
      StampIsNotAsked(t, loc, o, lib);
    }
  }

  lemma {:induction false} SameShapeStamp(s: string, t: string)
    requires SameShape(s, t) && StampAfterWeekdays(s)
    ensures StampAfterWeekdays(t)
  {
    hide IsDay, ToLower;
    if Weekday(s) != Weekday(t) { NamesHaveNoDigits(s[..3], t[..3]); }
    if Weekday(s) { SameShapeStamp(s[4..], t[4..]); }
  }

  /** The outcome depends on the shape, and on what the library tells the deferred
      functions, alone: exactly when the string is not a Unix time behind any number of
      weekdays.  Without the retry there are no verdicts, and the shape alone decides. */
  lemma ShapeInvariance(s: string, loc: Loc, o: Options, lib: Lib)
    ensures (forall t :: SameShape(s, t) && Verdicts(s, loc, o, lib) == Verdicts(t, loc, o, lib) ==>
                           SameOutcome(ParseTime(s, loc, o, lib), ParseTime(t, loc, o, lib)))
            <==> !StampAfterWeekdays(s)
    ensures !o.retry ==> forall t :: Verdicts(s, loc, o, lib) == Verdicts(t, loc, o, lib)
  {
    hide ParseTime, SameOutcome, StampAfterWeekdays, Verdicts, SameShape;
    if StampAfterWeekdays(s) {
      var t := StampBreaksShape(s, loc, o, lib);
    } else {
      forall t | SameShape(s, t) && Verdicts(s, loc, o, lib) == Verdicts(t, loc, o, lib)
        ensures SameOutcome(ParseTime(s, loc, o, lib), ParseTime(t, loc, o, lib)) {
        ShapeFixesOutcome(s, t, loc, o, lib);
      }
    }
    if !o.retry {
      forall t ensures Verdicts(s, loc, o, lib) == Verdicts(t, loc, o, lib) { NoVerdicts(s, t, loc, o, lib); }
    }
  }

  /** Two layouts of one buffer agree at k: where the parser wrote, they hold the byte it wrote;
      elsewhere each keeps the byte of its own input at the place the buffer had it from. */
  ghost predicate AgreeAt(x: Parsed, y: Parsed, k: nat)
    requires Sound(x) && Sound(y) && x.p == y.p && k < |ParsedLayout(x)| && k < |ParsedLayout(y)|
  {
    match FullMonth(x.p)[Dropped(x.p) + k]
    case Put(c) => ParsedLayout(x)[k] == c == ParsedLayout(y)[k]
    case Src(j) =>
      && ParsedLayout(x)[k] == Byte(Src(j), x.input) && ParsedLayout(y)[k] == Byte(Src(j), y.input)
      && (j < |x.input| == |y.input| ==> ParsedLayout(x)[k] == x.input[j] && ParsedLayout(y)[k] == y.input[j])
  }

  lemma LayoutsAgree(x: Parsed, y: Parsed, k: nat)
    requires Sound(x) && Sound(y) && x.p == y.p && SameShape(x.input, y.input)
    requires k < |FullMonth(x.p)| - Dropped(x.p)
    ensures |ParsedLayout(x)| == |ParsedLayout(y)| == |FullMonth(x.p)| - Dropped(x.p)
    ensures AgreeAt(x, y, k)
  {}
}

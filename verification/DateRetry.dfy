// The deferred retry never turns a good parse into none.
module DateRetry {
  import opened DateText
  import opened DateParser
  import opened DateAgree
  import opened DateRuns
  import opened DateRestart
  import opened DateShape
  import opened DatePreference

  /** Same success or error: a parser in both or in neither, and the same error. */
  ghost predicate Equiv(a: Outcome, b: Outcome) {
    a.err == b.err && a.x.Some? == b.x.Some?
  }

  /** Without the retry, neither preference nor location decides whether a parse succeeds. */
  lemma {:induction false} OptionsSteerNothing(s: string, loc: Loc, loc': Loc, a: bool, b: bool, lib: Lib)
    ensures Equiv(ParseTime(s, loc, Options(a, false), lib), ParseTime(s, loc', Options(b, false), lib))
    decreases |s|, Commas(s)
  {
    hide Scan, Commas, Sound;
    PreferenceSteersNothing(s, a, b);
    var x, y := Scan(s, a), Scan(s, b);
    if x.Again? {
      var c, d := if x.keepOptions then a else true, if x.keepOptions then b else true;
      OptionsSteerNothing(x.s, loc, loc', c, d, lib);
    }
  }

  // ------------------------------------------------- a string with dots over colons and commas

  /** d is s with dots over some colons and commas from index n on. */
  predicate LaterDots(s: string, d: string, n: int) {
    |d| == |s| && forall k :: 0 <= k < |s| ==> d[k] == s[k] || (n <= k && s[k] in ":," && d[k] == '.')
  }

  /** Once the time loop has left its first state it changes the string no more, and ends. */
  lemma {:induction false} AfterStart(p: Parser, ds: string, i: nat)
    requires TimeInv(p, ds, i) && !p.stateTime.TimeStart?
    ensures var f := RunTime(p, ds, i); f.Break? && f.ds == ds && !f.p.stateTime.TimeStart?
    decreases |ds| - i
  {
    hide TimeStep, Roles;
    if i < |ds| {
      StepAfterStart(p, ds, i);
      var f := TimeStep(p, ds, i);
      if f.Next? { AfterStart(f.p, ds, f.i); }
    }
  }

  /** The turn keeps the string and does not go back to the first state. */
  ghost predicate Onwards(f: Flow, ds: string) {
    (f.Next? || f.Break?) && f.ds == ds && !f.p.stateTime.TimeStart?
  }

  lemma AbbreviationStepOnwards(p: Parser, ds: string, i: nat)
    requires TimeAt(p, ds, i) && !p.stateTime.TimeStart?
    ensures Onwards(AbbreviationStep(p, ds, i), ds)
  {
    hide Write, Either, Roles, TimeFlowInv;
  }

  lemma NamedStepOnwards(p: Parser, ds: string, i: nat)
    requires TimeAt(p, ds, i) && !p.stateTime.TimeStart?
    ensures Onwards(NamedStep(p, ds, i), ds)
  {
    hide Write, Either, Roles, TimeFlowInv;
  }

  lemma OffsetStepOnwards(p: Parser, ds: string, i: nat)
    requires TimeAt(p, ds, i) && !p.stateTime.TimeStart?
    ensures Onwards(OffsetStep(p, ds, i), ds)
  {
    hide Write, Either, Roles, TimeFlowInv;
  }

  lemma PeriodStepOnwards(p: Parser, ds: string, i: nat)
    requires TimeAt(p, ds, i) && !p.stateTime.TimeStart?
    ensures Onwards(PeriodStep(p, ds, i), ds)
  {
    hide Write, Either, Roles, TimeFlowInv;
  }

  lemma PeriodOffsetStepOnwards(p: Parser, ds: string, i: nat)
    requires TimeAt(p, ds, i) && !p.stateTime.TimeStart?
    ensures Onwards(PeriodOffsetStep(p, ds, i), ds)
  {
    hide Write, Either, Roles, TimeFlowInv;
  }

  lemma Stays(p: Parser, ds: string, i: int)
    requires !p.stateTime.TimeStart?
    ensures Onwards(Next(p, ds, i), ds)
  {}

  lemma StepAfterStart(p: Parser, ds: string, i: nat)
    requires TimeAt(p, ds, i) && !p.stateTime.TimeStart?
    ensures Onwards(TimeStep(p, ds, i), ds)
  {
    hide Roles, TimeFlowInv, Onwards, AbbreviationStep, NamedStep, OffsetStep, PeriodStep, PeriodOffsetStep;
    AbbreviationStepOnwards(p, ds, i);
    NamedStepOnwards(p, ds, i);
    OffsetStepOnwards(p, ds, i);
    PeriodStepOnwards(p, ds, i);
    PeriodOffsetStepOnwards(p, ds, i);
    assert Onwards(Next(p, ds, i + 1), ds) by { Stays(p, ds, i + 1); }
  }

  lemma HalfSeesNoDots(p: Parser, ds: string, d: string, i: nat)
    requires TimeAt(p, ds, i) && TimeAt(p, d, i) && p.stateTime.TimeStart? && LaterDots(ds, d, i + 1)
    ensures var f, g := OnTimeHalf(p, ds, i), OnTimeHalf(p, d, i); g.Next? && f.Next? && g.p == f.p && g.i == f.i && f.ds == ds && g.ds == d
  {
    hide Write, Either, Zeros, Roles, TimeFlowInv, Commas;
    assert HalfMark(ds, ds[i], i) == HalfMark(d, d[i], i);
  }

  /** Looking one or two bytes ahead for t, m or a space sees no colon, comma or dot. */
  lemma AheadSeesNoDots(p: Parser, ds: string, d: string, i: nat)
    requires TimeAt(p, ds, i) && TimeAt(p, d, i) && p.stateTime.TimeStart? && LaterDots(ds, d, i + 1)
    ensures var f, g := OnTimeHalf(p, ds, i), OnTimeHalf(p, d, i); g.Next? && f.Next? && g.p == f.p && g.i == f.i && f.ds == ds && g.ds == d
    ensures var f, g := OnTimeA(p, ds, i), OnTimeA(p, d, i); g.Next? && f.Next? && g.p == f.p && g.i == f.i && f.ds == ds && g.ds == d
  {
    hide Write, Either, Zeros, Roles, TimeFlowInv, Commas, OnTimeHalf;
    HalfSeesNoDots(p, ds, d, i);
  }

  lemma CharSeesNoDots(p: Parser, ds: string, d: string, i: nat)
    requires TimeAt(p, ds, i) && TimeAt(p, d, i) && p.stateTime.TimeStart? && LaterDots(ds, d, i + 1)
    requires var f := OnTimeChar(p, ds, i); f.Next? && f.ds == ds
    ensures var f, g := OnTimeChar(p, ds, i), OnTimeChar(p, d, i);
            g.Next? && g.p == f.p && g.i == f.i && g.ds == d
  {
    hide Write, Either, Zeros, Roles, TimeFlowInv, Commas, OnTimeA, OnTimeHalf;
    AheadSeesNoDots(p, ds, d, i);
  }

  /** A turn that stays in the first state reads nothing that dots over later colons hide. */
  lemma StartSeesNoDots(p: Parser, ds: string, d: string, i: nat)
    requires TimeAt(p, ds, i) && TimeAt(p, d, i) && p.stateTime.TimeStart? && LaterDots(ds, d, i + 1)
    requires var f := TimeStep(p, ds, i); f.Next? && f.ds == ds
    ensures var f, g := TimeStep(p, ds, i), TimeStep(p, d, i);
            g.Next? && g.p == f.p && g.i == f.i && g.ds == d
  {
    hide TimeFlowInv, Commas, OnTimeChar, AbbreviationStep, NamedStep, OffsetStep, PeriodStep, PeriodOffsetStep;
    CharSeesNoDots(if p.houri == 0 then p.(houri := i) else p, ds, d, i);
  }

  /** The time loop leaves its string with dots over colons, at or after where it began, and
      over a comma if it starts over. */
  lemma {:induction false} LeavesDots(p: Parser, ds: string, i: nat)
    requires TimeInv(p, ds, i)
    ensures var f := RunTime(p, ds, i); LaterDots(ds, f.ds, i) && (f.Restart? ==> LaterDots(ds, f.s, i))
    decreases |ds| - i
  {
    hide TimeStep, TimeInv, Commas;
    if i < |ds| {
      var f := TimeStep(p, ds, i);
      if f.Next? { LeavesDots(f.p, f.ds, f.i); }
    }
  }

  lemma DotLeavesStart(p: Parser, d: string, i: nat)
    requires TimeAt(p, d, i) && p.stateTime.TimeStart? && d[i] == '.'
    ensures var f := TimeStep(p, d, i); f.Next? && f.ds == d && !f.p.stateTime.TimeStart?
  {
    hide Roles, Commas;
  }

  /** Run again on the string it left behind, the time loop ends: where the first dot now
      is, it starts a fraction, and commas no longer matter. */
  lemma {:induction false} RunAgain(p: Parser, ds: string, i: nat)
    requires TimeInv(p, ds, i) && p.stateTime.TimeStart?
    ensures var d := RunTime(p, ds, i).ds; d != ds ==> TimeInv(p, d, i) && RunTime(p, d, i).Break?
    decreases |ds| - i
  {
    hide TimeStep, Roles, Commas;
    if i < |ds| {
      var f := TimeStep(p, ds, i);
      var d := RunTime(p, ds, i).ds;
      if f.Next? && d != ds {
        LeavesDots(p, ds, i);
        LeavesDots(f.p, f.ds, f.i);
        if f.ds != ds {
          DotLeavesStart(p, d, i);
          var g := TimeStep(p, d, i);
          AfterStart(g.p, d, g.i);
        } else if f.p.stateTime.TimeStart? {
          RunAgain(f.p, ds, f.i);
          StartSeesNoDots(p, ds, d, i);
        } else {
          AfterStart(f.p, f.ds, f.i);
        }
      }
    }
  }

  /** Started over, the time loop ends: a dot now starts the fraction, and a fraction's commas
      do not start over. */
  lemma {:induction false} RunAfterComma(p: Parser, ds: string, i: nat)
    requires TimeInv(p, ds, i) && p.stateTime.TimeStart?
    ensures var f := RunTime(p, ds, i);
            f.Restart? ==> TimeInv(p, f.s, i) && RunTime(p, f.s, i).Break? && RunTime(p, f.s, i).ds == f.s
    decreases |ds| - i
  {
    hide TimeStep, Roles, Commas;
    var run := RunTime(p, ds, i);
    if i < |ds| && run.Restart? {
      var f, d := TimeStep(p, ds, i), run.s;
      LeavesDots(p, ds, i);
      if f.Next? { LeavesDots(f.p, f.ds, f.i); }
      if f.Next? && f.ds == ds {
        if f.p.stateTime.TimeStart? {
          RunAfterComma(f.p, ds, f.i);
          StartSeesNoDots(p, ds, d, i);
        } else {
          AfterStart(f.p, f.ds, f.i);
          assert false;
        }
      } else {
        DotLeavesStart(p, d, i);
        var g := TimeStep(p, d, i);
        AfterStart(g.p, d, g.i);
      }
    }
  }

  // ------------------------------------------------- the date loop on the two strings

  /** The turn does on d what it does on the other string, if it stays in the pass. */
  ghost predicate Redone(f: Flow, g: Flow, d: string) {
    && (f.Next? ==> g.Next? && g.p == f.p && g.i == f.i && g.ds == d)
    && (f.Break? ==> g.Break? && g.p == f.p && g.i == f.i && g.ds == d)
  }

  lemma ColonIsLocal(p: Parser, pref: bool, s: string, d: string, i: nat)
    requires DateAt(p, s, i) && DateAt(p, d, i) && p.stateDate.DateDigit?
    requires (s[i] == d[i] || p.stateDate.DateDigitSt?) && (i + 1 < |s| && s[i] == '/' && p.stateDate.DateDigit? ==> s[i + 1] == d[i + 1])
    ensures Redone(OnDigitDot1(p, s, i), OnDigitDot1(p, d, i), d)
    ensures s[i] == '/' ==> Redone(OnDigitSlash1(p, pref, s, i), OnDigitSlash1(p, pref, d, i), d)
    ensures OnDigitSlash1(p, pref, s, i).Next? && !OnDigitSlash1(p, pref, s, i).p.stateDate.DateDigitSt?
    ensures Redone(OnDigitColon1(p, pref, s, i), OnDigitColon1(p, pref, d, i), d)
  {
    hide Write, Either, Roles, DateFlowInv;
  }

  lemma DigitIsLocal(p: Parser, pref: bool, s: string, d: string, i: nat)
    requires DateAt(p, s, i) && DateAt(p, d, i) && p.stateDate.DateDigit?
    requires (s[i] == d[i] || p.stateDate.DateDigitSt?) && (i + 1 < |s| && s[i] == '/' && p.stateDate.DateDigit? ==> s[i + 1] == d[i + 1])
    ensures Redone(OnDigit(p, pref, s, i), OnDigit(p, pref, d, i), d)
  {
    hide Write, Either, Roles, DateFlowInv, OnDigitSlash1, OnDigitColon1, OnDigitDot1;
    ColonIsLocal(p, pref, s, d, i);
  }

  lemma DigitWsIsLocal(p: Parser, s: string, d: string, i: nat)
    requires DateAt(p, s, i) && DateAt(p, d, i) && p.stateDate.DateDigitWs?
    requires s[i] == d[i]
    ensures Redone(OnDigitWs(p, s, i), OnDigitWs(p, d, i), d)
  {
    hide Write, Either, Roles, DateFlowInv;
  }

  lemma DigitDotIsLocal(p: Parser, s: string, d: string, i: nat)
    requires DateAt(p, s, i) && DateAt(p, d, i) && p.stateDate.DateDigitDot?
    requires s[i] == d[i]
    ensures Redone(OnDigitDot(p, s, i), OnDigitDot(p, d, i), d)
  {
    hide Write, Either, Roles, DateFlowInv;
  }

  lemma DigitsIsLocal(p: Parser, pref: bool, s: string, d: string, i: nat)
    requires DateAt(p, s, i) && DateAt(p, d, i) && Kind(p.stateDate) == 1
    requires (s[i] == d[i] || p.stateDate.DateDigitSt?) && (i + 1 < |s| && s[i] == '/' && p.stateDate.DateDigit? ==> s[i + 1] == d[i + 1])
    ensures Redone(DigitsStep(p, pref, s, i), DigitsStep(p, pref, d, i), d)
  {
    hide Write, Either, Roles, DateFlowInv, OnDigit, OnDigitWs, OnDigitDot, Kind;
    if p.stateDate.DateDigitWs? { DigitWsIsLocal(p, s, d, i); }
    if p.stateDate.DateDigitDot? { DigitDotIsLocal(p, s, d, i); }
    if p.stateDate.DateDigit? { DigitIsLocal(p, pref, s, d, i); }
  }

  lemma SlashesIsLocal(p: Parser, pref: bool, s: string, d: string, i: nat)
    requires DateAt(p, s, i) && DateAt(p, d, i) && Kind(p.stateDate) == 1
    requires (s[i] == d[i] || p.stateDate.DateDigitSt?) && (i + 1 < |s| && s[i] == '/' && p.stateDate.DateDigit? ==> s[i + 1] == d[i + 1])
    ensures Redone(SlashesStep(p, pref, s, i), SlashesStep(p, pref, d, i), d)
  {
    hide Write, Either, Roles, DateFlowInv, Kind;
  }

  lemma DashesIsLocal(p: Parser, s: string, d: string, i: nat)
    requires DateAt(p, s, i) && DateAt(p, d, i) && Kind(p.stateDate) == 1
    requires (s[i] == d[i] || p.stateDate.DateDigitSt?) && (i + 1 < |s| && s[i] == '/' && p.stateDate.DateDigit? ==> s[i + 1] == d[i + 1])
    ensures Redone(DashesStep(p, s, i), DashesStep(p, d, i), d)
  {
    hide Write, Either, Roles, DateFlowInv, Kind;
  }

  lemma DayDashesIsLocal(p: Parser, s: string, d: string, i: nat)
    requires DateAt(p, s, i) && DateAt(p, d, i) && Kind(p.stateDate) == 1
    requires (s[i] == d[i] || p.stateDate.DateDigitSt?) && (i + 1 < |s| && s[i] == '/' && p.stateDate.DateDigit? ==> s[i + 1] == d[i + 1])
    ensures Redone(DayDashesStep(p, s, i), DayDashesStep(p, d, i), d)
  {
    hide Write, Either, Roles, DateFlowInv, Kind;
  }

  /** Digit dates are read left to right: a turn looks at its byte and, only at a slash,
      at the next one. */
  lemma DigitTurnIsLocal(p: Parser, pref: bool, s: string, d: string, i: nat)
    requires DateAt(p, s, i) && DateAt(p, d, i) && Kind(p.stateDate) <= 1
    requires (s[i] == d[i] || p.stateDate.DateDigitSt?) && (i + 1 < |s| && s[i] == '/' && p.stateDate.DateDigit? ==> s[i + 1] == d[i + 1])
    ensures Redone(DateStep(p, pref, s, i), DateStep(p, pref, d, i), d)
  {
    hide Roles, DateFlowInv, DigitsStep, DashesStep, DayDashesStep, SlashesStep, WordsStep, MonthsStep, WeekdaysStep;
    if !p.stateDate.DateStart? {
      DigitsIsLocal(p, pref, s, d, i);
      SlashesIsLocal(p, pref, s, d, i);
      DashesIsLocal(p, s, d, i);
      DayDashesIsLocal(p, s, d, i);
    }
  }

  lemma SlashStays(p: Parser, pref: bool, s: string, d: string, i: nat)
    requires DateAt(p, s, i) && p.stateDate.DateDigit? && s[i] == '/'
    ensures var f := DateStep(p, pref, s, i); f.Next? && !f.p.stateDate.DateDigitSt?
  {
    hide Write, Either, Roles, DateFlowInv, OnDigitColon1, OnDigitDot1;
  }

  lemma DigitStarts(p: Parser, pref: bool, s: string)
    requires DateAt(p, s, 0) && p.stateDate.DateStart? && IsDigit(s[0])
    ensures DateStep(p, pref, s, 0) == Next(p.(stateDate := DateDigit), s, 1)
  {}

  /** If the date loop hands over to the time loop at index j, it does the same on any
      string that agrees with this one up to j. */
  lemma {:induction false} RunIsLocal(p: Parser, pref: bool, s: string, d: string, i: nat)
    requires DateInv(p, s, i) && |d| == |s| && Kind(p.stateDate) <= 1
    requires p.stateDate.DateStart? ==> i == 0 && |s| > 0 && IsDigit(s[0])
    requires var f := RunDate(p, pref, s, i);
             f.Break? && f.p.stateTime.TimeStart? && forall k :: 0 <= k <= f.i && k < |s| ==> d[k] == s[k]
    ensures var f := RunDate(p, pref, s, i);
            RunDate(p, pref, d, i) == Break(f.p, d, f.i) && f.i >= i - Rewind(p.stateDate)
    decreases |s| - i
  {
    hide DateStep, Roles, Accepting, Depth;
    if i < |s| {
      var f := DateStep(p, pref, s, i);
      if p.stateDate.DateStart? { DigitStarts(p, pref, s); }
      if f.Next? { RunIsLocal(f.p, pref, s, d, f.i); }
      if s[i] == '/' && p.stateDate.DateDigit? { SlashStays(p, pref, s, d, i); }
      DigitTurnIsLocal(p, pref, s, d, i);
    }
  }

  // ------------------------------------------------- a pass on the string left behind

  lemma {:induction false} SkipDots(s: string, d: string, i: nat)
    requires LaterDots(s, d, SkipSpaces(s, i))
    ensures SkipSpaces(d, i) == SkipSpaces(s, i)
    decreases |s| - i
  {
    if i < |s| && s[i] == ' ' { SkipDots(s, d, i + 1); }
  }

  lemma AcceptedFinish(p: Parser, ds: string, i: int)
    requires Finishable(p) && Accepting(p.stateDate)
    ensures var r := Finish(p, ds, i); r.p.Some? && r.err.None?
  {
    hide Write, Either, Roles;
  }

  lemma StillFinishable(p: Parser, end: int)
    requires Finishable(p) && FractionFits(p)
    ensures Finishable(p.CoalesceTime(end)) && p.CoalesceTime(end).stateDate == p.stateDate
  {}

  /** A digit date that a time follows is accepted, and so is the string the time loop
      leaves behind when it has put dots over colons in it. */
  lemma TimeAgain(p: Parser, s: string, i: nat)
    requires DateEndInv(p, s, i) && p.stateTime.TimeStart?
    ensures var d := ScanTime(p, s, i).ds;
            d != s ==>
              && i < |s| && LaterDots(s, d, i + 1)
              && DateEndInv(p, d, i) && ScanTime(p, d, i).Done? && ScanTime(p, d, i).res.p.Some?
  {
    hide RunTime, EndTime, Accepting, Roles, Commas;
    var k := SkipSpaces(s, if i < |s| then i + 1 else i);
    var d := ScanTime(p, s, i).ds;
    LeavesDots(p, s, k);
    if d != s {
      RunAgain(p, s, k);
      TimeOn(p, s, d, i, k);
    }
  }

  /** The time half on a string with dots, if its loop ends there. */
  lemma TimeOn(p: Parser, s: string, d: string, i: nat, k: nat)
    requires DateEndInv(p, s, i) && p.stateTime.TimeStart? && d != s
    requires k == SkipSpaces(s, if i < |s| then i + 1 else i) && LaterDots(s, d, k)
    requires TimeInv(p, d, k) && RunTime(p, d, k).Break?
    ensures i < |s| && LaterDots(s, d, i + 1)
    ensures DateEndInv(p, d, i) && ScanTime(p, d, i).Done? && ScanTime(p, d, i).res.p.Some?
    ensures ScanTime(p, d, i).ds == RunTime(p, d, k).ds
  {
    hide RunTime, TimeFinish, Finish, Accepting, Parser.CoalesceTime, Finishable, Roles, Commas, Write, Either, Zeros;
    SkipDots(s, d, i + 1);
    var g := RunTime(p, d, k);
    var u := TimeFinish(g.p, g.ds, g.i);
    if u.Break? {
      StillFinishable(u.p, u.i);
      AcceptedFinish(u.p.CoalesceTime(u.i), g.ds, u.i);
    }
  }

  /** Started over, the time half is done. */
  lemma TimeAfterComma(p: Parser, s: string, i: nat)
    requires DateEndInv(p, s, i) && p.stateTime.TimeStart? && ScanTime(p, s, i).Again?
    ensures var d := ScanTime(p, s, i).s;
            && d != s && i < |s| && LaterDots(s, d, i + 1)
            && DateEndInv(p, d, i) && ScanTime(p, d, i).Done? && ScanTime(p, d, i).res.p.Some? && ScanTime(p, d, i).ds == d
  {
    hide RunTime, EndTime, Accepting, Roles, Commas;
    var k := SkipSpaces(s, if i < |s| then i + 1 else i);
    LeavesDots(p, s, k);
    RunAfterComma(p, s, k);
    TimeOn(p, s, ScanTime(p, s, i).s, i, k);
  }

  /** A digit date starts over at most once; then it succeeds, and leaves its string alone. */
  lemma ScanAfterComma(s: string, pref: bool)
    requires |s| > 0 && IsDigit(s[0]) && Scan(s, pref).Again?
    ensures var d := Scan(s, pref).s;
            && |d| == |s| && d[0] == s[0] && Scan(s, pref).keepOptions
            && Scan(d, pref).Done? && Scan(d, pref).res.p.Some? && Scan(d, pref).ds == d
  {
    hide RunDate, ScanTime, Finish;
    var p := NewParser(|s|);
    var f := RunDate(p, pref, s, 0);
    DigitNoRestart(s, pref);
    if f.Break? {
      CoalesceDateInv(f.p, s, f.i);
      var q := f.p.CoalesceDate(f.i);
      if q.stateTime.TimeStart? {
        TimeAfterComma(q, s, f.i);
        RunIsLocal(p, pref, s, Scan(s, pref).s, 0);
        NoDay(s, 0);
        KeepsOptions(q, s, f.i);
      }
    }
  }

  lemma KeepsOptions(p: Parser, s: string, i: nat)
    requires DateEndInv(p, s, i) && p.stateTime.TimeStart? && !Weekday(s)
    ensures ScanTime(p, s, i).Again? ==> ScanTime(p, s, i).keepOptions
  {
    ScanTimeHandsOn(p, s, i);
  }

  /** The dots a pass puts over colons leave the commas as they are. */
  lemma {:induction false} RunCommas(p: Parser, ds: string, i: nat)
    requires TimeInv(p, ds, i)
    ensures Commas(RunTime(p, ds, i).ds) == Commas(ds)
    decreases |ds| - i
  {
    hide TimeStep, TimeInv, Commas;
    if i < |ds| {
      var f := TimeStep(p, ds, i);
      if f.Next? { RunCommas(f.p, f.ds, f.i); }
    }
  }

  lemma ScanCommas(s: string, pref: bool)
    requires |s| > 0 && IsDigit(s[0])
    ensures Commas(Scan(s, pref).ds) == Commas(s)
  {
    hide RunDate, ScanTime, Finish, Commas;
    var f := RunDate(NewParser(|s|), pref, s, 0);
    DigitNoRestart(s, pref);
    if f.Break? {
      CoalesceDateInv(f.p, s, f.i);
      var q := f.p.CoalesceDate(f.i);
      if q.stateTime.TimeStart? { TimeCommas(q, s, f.i); }
    }
  }

  lemma TimeCommas(p: Parser, s: string, i: nat)
    requires DateEndInv(p, s, i) && p.stateTime.TimeStart?
    ensures Commas(ScanTime(p, s, i).ds) == Commas(s)
  {
    hide RunTime, EndTime, Accepting, Roles, Commas;
    RunCommas(p, s, SkipSpaces(s, if i < |s| then i + 1 else i));
  }

  lemma ScanAgain(s: string, pref: bool)
    requires |s| > 0 && IsDigit(s[0])
    ensures var d := Scan(s, pref).ds;
            d != s ==> |d| == |s| && d[0] == s[0] && Scan(d, pref).Done? && Scan(d, pref).res.p.Some?
  {
    hide RunDate, ScanTime, Finish;
    var p := NewParser(|s|);
    var f := RunDate(p, pref, s, 0);
    DigitNoRestart(s, pref);
    if f.Break? {
      CoalesceDateInv(f.p, s, f.i);
      var q := f.p.CoalesceDate(f.i);
      if q.stateTime.TimeStart? {
        TimeAgain(q, s, f.i);
        var d := Scan(s, pref).ds;
        if d != s { RunIsLocal(p, pref, s, d, 0); }
      }
    }
  }

  lemma DigitNoRestart(s: string, pref: bool)
    requires |s| > 0 && IsDigit(s[0])
    ensures !RunDate(NewParser(|s|), pref, s, 0).Restart?
  {
    hide DateStep;
    DigitStarts(NewParser(|s|), pref, s);
  }

  // ------------------------------------------------- words are never ambiguous

  lemma WordScan(s: string, pref: bool)
    requires |s| > 0 && IsLetter(s[0])
    ensures var a := Scan(s, pref); a.Done? && a.res.p.Some? ==> !a.res.p.value.ambiguousMD
  {
    hide RunDate, ScanTime, Finish;
    var p := NewParser(|s|);
    var f := RunDate(p, pref, s, 0);
    WordRun(s, pref);
    if f.Break? {
      CoalesceDateInv(f.p, s, f.i);
      var q := f.p.CoalesceDate(f.i);
      if q.stateTime.TimeStart? { ScanTimeState(q, s, f.i); }
    }
  }

  lemma WordRun(s: string, pref: bool)
    requires |s| > 0 && IsLetter(s[0])
    ensures var f := RunDate(NewParser(|s|), pref, s, 0);
            && (f.Break? ==> Kind(f.p.stateDate) == 2)
            && (f.Return? && f.res.p.Some? ==> Kind(f.res.p.value.stateDate) == 2)
  {
    hide DateStep, Kind;
    var p := NewParser(|s|);
    assert DateStep(p, pref, s, 0) == Next(p.(stateDate := DateAlpha), s, 1) by { WordStarts(p, pref, s); }
    assert Kind(DateAlpha) == 2 by { WordKind(); }
  }

  lemma WordKind()
    ensures Kind(DateAlpha) == 2
  {}

  lemma WordStarts(p: Parser, pref: bool, s: string)
    requires DateAt(p, s, 0) && p.stateDate.DateStart? && IsLetter(s[0])
    ensures DateStep(p, pref, s, 0) == Next(p.(stateDate := DateAlpha), s, 1)
  {}

  lemma ScanTimeState(p: Parser, s: string, i: nat)
    requires DateEndInv(p, s, i) && p.stateTime.TimeStart?
    ensures var a := ScanTime(p, s, i); a.Done? && a.res.p.Some? ==> a.res.p.value.stateDate == p.stateDate
  {
    hide RunTime, TimeFinish, Finish, Accepting;
  }

  /** A date that starts with a word, other than a weekday to drop, is never ambiguous. */
  lemma {:induction false} WordsAreNeverAmbiguous(s: string, loc: Loc, o: Options, lib: Lib)
    requires |s| > 0 && IsLetter(s[0]) && !Weekday(s)
    ensures var r := ParseTime(s, loc, o, lib); r.x.Some? ==> !r.x.value.p.ambiguousMD
    decreases |s|, Commas(s)
  {
    hide Scan, Sound, Commas, Weekday;
    var a := Scan(s, o.preferMonthFirst);
    ScanHandsOn(s, o.preferMonthFirst);
    WordScan(s, o.preferMonthFirst);
    if a.Again? { WordsAreNeverAmbiguous(a.s, loc, o, lib); }
  }

  // ------------------------------------------------- the theorem

  lemma WithoutRetry(s: string, loc: Loc, pref: bool, lib: Lib)
    ensures ParseTime(s, loc, Options(pref, false), lib) == Straight(s, loc, Options(pref, false), lib)
  {
    hide Scan, Sound;
  }

  lemma NotAWord(s: string, loc: Loc, pref: bool, lib: Lib)
    requires var r := Straight(s, loc, Options(pref, true), lib); r.x.Some? && r.x.value.p.ambiguousMD
    requires !Weekday(s)
    ensures |s| > 0 && IsDigit(s[0])
  {
    hide Scan, Sound, Weekday;
    var a := Scan(s, pref);
    ScanHandsOn(s, pref);
    if |s| == 0 || (!IsDigit(s[0]) && !IsLetter(s[0])) {
      NoStart(s, pref);
    } else if IsLetter(s[0]) {
      WordScan(s, pref);
      if a.Again? { WordsAreNeverAmbiguous(a.s, loc, Options(pref, true), lib); }
    }
  }

  lemma NoStart(s: string, pref: bool)
    requires |s| == 0 || (!IsDigit(s[0]) && !IsLetter(s[0]))
    ensures Scan(s, pref).Done? && Scan(s, pref).res == Result(None, Some(Unknown))
  {}

  /** The string the retry is given parses, under either preference, if the first try did. */
  lemma SecondTry(s: string, loc: Loc, pref: bool, again: bool, lib: Lib)
    requires var r := Straight(s, loc, Options(pref, true), lib); r.x.Some? && r.x.value.p.ambiguousMD
    requires Equiv(Straight(s, loc, Options(pref, true), lib), Straight(s, loc, Options(pref, false), lib))
    ensures ParseTime(Scan(s, pref).ds, Local, Options(again, false), lib).x.Some?
  {
    hide Scan, Sound, Weekday, RunDate, ScanTime;
    var a := Scan(s, pref);
    ScanHandsOn(s, pref);
    OptionsSteerNothing(a.ds, Local, Local, pref, again, lib);
    WithoutRetry(a.ds, Local, pref, lib);
    if a.ds == s {
      WithoutRetry(s, loc, pref, lib);
      OptionsSteerNothing(s, loc, Local, pref, pref, lib);
    } else if a.Again? && a.ds == a.s {
      OptionsSteerNothing(a.s, loc, Local, pref, pref, lib);
    } else {
      NotAWord(s, loc, pref, lib);
      ScanAgain(s, pref);
    }
  }

  /** The retry changes neither whether parseTime succeeds nor its error: although the
      error of the second parse is dropped, there is always a second parser to return. */
  lemma {:induction false} RetryKeepsTheOutcome(s: string, loc: Loc, pref: bool, lib: Lib)
    ensures Equiv(ParseTime(s, loc, Options(pref, true), lib), ParseTime(s, loc, Options(pref, false), lib))
    decreases |s|, Commas(s)
  {
    hide Scan, Sound;
    var a := Scan(s, pref);
    if a.Again? && a.keepOptions { RetryKeepsTheOutcome(a.s, loc, pref, lib); }
    WithoutRetry(s, loc, pref, lib);
    var r := Straight(s, loc, Options(pref, true), lib);
    if r.x.Some? && r.x.value.p.ambiguousMD {
      SecondTry(s, loc, pref, !r.x.value.preferMonthFirst, lib);
    }
  }
}

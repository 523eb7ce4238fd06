// Which strings a pass hands on, and that digits matter only to Unix times.
module DateRestart {
  import opened DateText
  import opened DateParser
  import opened DateAgree
  import opened DateRuns

  /** A three-letter weekday and a space: dropped, with the options, before anything else. */
  predicate Weekday(s: string) {
    |s| > 3 && s[3] == ' ' && IsDay(ToLower(s[..3]))
  }

  function AfterWeekdays(s: string): string {
    if Weekday(s) then AfterWeekdays(s[4..]) else s
  }

  predicate WordFamily(d: DateState) {
    || MonthFamily(d) || d.DateAlpha? || d.DateAlphaWs? || d.DateAlphaWsDigit? || d.DateAlphaPeriodWsDigit?
  }

  /** What the bytes behind the date loop say about how the string starts. */
  ghost predicate Behind(d: DateState, s: string, i: int) {
    && (Weekday(s) ==> (d.DateStart? && i == 0) || (d.DateAlpha? && 1 <= i <= 3))
    && (d.DateStart? ==> i == 0)
    && (WordFamily(d) ==> 1 <= i && |s| > 0 && IsLetter(s[0]))
    && (MonthFamily(d) && !d.DateAlphaWsMonthSuffix? ==> 5 <= i)
    && (d.DateAlphaWs? || d.DateAlphaWsDigit? || d.DateAlphaWsMonthSuffix? ==>
        2 <= i && (i <= 3 ==> i <= |s| && (s[1] == ' ' || (i == 3 && d.DateAlphaWs? && s[2] == ' '))))
  }

  ghost predicate BehindFlow(f: Flow, s: string) {
    match f
    case Next(q, _, j) => Behind(q.stateDate, s, j)
    case Restart(t, false, _) => Weekday(s) && t == s[4..]
    case Restart(t, true, d) => !Weekday(s) && !Weekday(t) && |t| > 0 && IsLetter(t[0])
    case Break(_, _, _) => !Weekday(s)
    case Return(_) => !Weekday(s)
  }

  lemma DigitSlash1Behind(p: Parser, pref: bool, s: string, i: nat)
    requires DateAt(p, s, i) && Behind(p.stateDate, s, i) && p.stateDate.DateDigit?
    ensures BehindFlow(OnDigitSlash1(p, pref, s, i), s)
    ensures BehindFlow(OnDigitColon1(p, pref, s, i), s)
    ensures BehindFlow(OnDigitDot1(p, s, i), s)
  {
    hide Write, Either, Roles, DateFlowInv, Weekday;
  }

  lemma DigitBehind(p: Parser, pref: bool, s: string, i: nat)
    requires DateAt(p, s, i) && Behind(p.stateDate, s, i) && p.stateDate.DateDigit?
    ensures BehindFlow(OnDigit(p, pref, s, i), s)
  {
    hide Write, Either, Roles, DateFlowInv, Weekday, OnDigitSlash1, OnDigitColon1, OnDigitDot1;
    DigitSlash1Behind(p, pref, s, i);
  }

  lemma DigitsBehind(p: Parser, pref: bool, s: string, i: nat)
    requires DateAt(p, s, i) && Behind(p.stateDate, s, i) && !WordFamily(p.stateDate) && !p.stateDate.DateStart?
    ensures BehindFlow(DigitsStep(p, pref, s, i), s)
  {
    hide Write, Either, Roles, DateFlowInv, Weekday, OnDigit;
    if p.stateDate.DateDigit? { DigitBehind(p, pref, s, i); }
  }

  lemma SlashesBehind(p: Parser, pref: bool, s: string, i: nat)
    requires DateAt(p, s, i) && Behind(p.stateDate, s, i) && !WordFamily(p.stateDate) && !p.stateDate.DateStart?
    ensures BehindFlow(SlashesStep(p, pref, s, i), s)
  {
    hide Write, Either, Roles, DateFlowInv, Weekday;
  }

  lemma DashesBehind(p: Parser, s: string, i: nat)
    requires DateAt(p, s, i) && Behind(p.stateDate, s, i) && !WordFamily(p.stateDate) && !p.stateDate.DateStart?
    ensures BehindFlow(DashesStep(p, s, i), s)
  {
    hide Write, Either, Roles, DateFlowInv, Weekday;
  }

  lemma DayDashesBehind(p: Parser, s: string, i: nat)
    requires DateAt(p, s, i) && Behind(p.stateDate, s, i) && !WordFamily(p.stateDate) && !p.stateDate.DateStart?
    ensures BehindFlow(DayDashesStep(p, s, i), s)
  {
    hide Write, Either, Roles, DateFlowInv, Weekday;
  }

  lemma WeekdaysBehind(p: Parser, s: string, i: nat)
    requires DateAt(p, s, i) && Behind(p.stateDate, s, i) && !WordFamily(p.stateDate) && !p.stateDate.DateStart?
    ensures BehindFlow(WeekdaysStep(p, s, i), s)
  {
    hide Write, Either, Roles, DateFlowInv, Weekday;
  }

  /** A day name is letters only, so no string with a space among its first three
      bytes starts with one. */
  lemma NoDay(t: string, k: nat)
    requires k < 3 && k < |t| && !IsLetter(t[k])
    ensures !Weekday(t)
  {
    DaysAreLetters();
    if |t| > 3 {
      assert !IsLetter(ToLower(t[..3])[k]);
    }
  }

  lemma DayLength(w: string)
    requires IsDay(w)
    ensures |w| >= 3
  {}

  lemma AlphaBehind(p: Parser, s: string, i: nat)
    requires DateAt(p, s, i) && Behind(p.stateDate, s, i) && p.stateDate.DateAlpha?
    ensures BehindFlow(OnAlpha(p, s, i), s)
  {
    hide Write, Either, Roles, DateFlowInv, IsMonthFull, ToLower;
    if s[i] == '.' && i == 4 {
      var t := s[..3] + s[4..];
      assert t[3] == '.';
    }
    if Weekday(s) && i < 3 {
      if !IsLetter(s[i]) { NoDay(s, i); }
    }
    if s[i] == ' ' && i <= 3 && IsDay(ToLower(s[..i])) {
      DayLength(ToLower(s[..i]));
    }
  }

  lemma WordsBehind(p: Parser, s: string, i: nat)
    requires DateAt(p, s, i) && Behind(p.stateDate, s, i) && !p.stateDate.DateStart?
    ensures BehindFlow(WordsStep(p, s, i), s)
  {
    hide Write, Either, Roles, DateFlowInv, OnAlpha, IsDay, ToLower;
    if p.stateDate.DateAlpha? { AlphaBehind(p, s, i); }
  }

  lemma SuffixBehind(s: string, i: nat)
    requires Behind(DateAlphaWsMonthSuffix, s, i) && i + 2 < |s|
    ensures var t := s[..i] + s[i + 2..]; !Weekday(t) && |t| > 0 && IsLetter(t[0])
  {
    var t := s[..i] + s[i + 2..];
    if i <= 3 {
      assert t[1] == ' ';
      NoDay(t, 1);
    } else {
      assert t[..3] == s[..3] && t[3] == s[3];
    }
  }

  lemma MonthsBehind(p: Parser, s: string, i: nat)
    requires DateAt(p, s, i) && Behind(p.stateDate, s, i) && MonthFamily(p.stateDate)
    ensures BehindFlow(MonthsStep(p, s, i), s)
  {
    hide Write, Either, Roles, DateFlowInv, IsDay, ToLower, Weekday;
    if p.stateDate.DateAlphaWsMonthSuffix? && i + 2 < |s| { SuffixBehind(s, i); }
  }

  lemma DateStepBehind(p: Parser, pref: bool, s: string, i: nat)
    requires DateAt(p, s, i) && Behind(p.stateDate, s, i)
    ensures BehindFlow(DateStep(p, pref, s, i), s)
  {
    hide Roles, DateFlowInv, DigitsStep, DashesStep, DayDashesStep, SlashesStep, WordsStep, MonthsStep, WeekdaysStep, IsDay, ToLower;
    if p.stateDate.DateStart? {
      if Weekday(s) && !IsLetter(s[0]) { NoDay(s, 0); }
    } else {
      WordsBehind(p, s, i);
      if MonthFamily(p.stateDate) { MonthsBehind(p, s, i); }
      if !WordFamily(p.stateDate) {
        DigitsBehind(p, pref, s, i);
        SlashesBehind(p, pref, s, i);
        DashesBehind(p, s, i);
        DayDashesBehind(p, s, i);
        WeekdaysBehind(p, s, i);
      }
    }
  }

  /** What the date loop hands on: after a weekday, the rest of the string; otherwise a
      string that starts with a letter but not with a weekday. */
  lemma {:induction false} RunDateBehind(p: Parser, pref: bool, s: string, i: nat)
    requires DateInv(p, s, i) && Behind(p.stateDate, s, i)
    ensures BehindFlow(RunDate(p, pref, s, i), s)
    decreases if p.stateDate.DateAlphaWsMonthSuffix? then 0 else 1, if i < |s| then |s| - i else 0
  {
    hide DateStep, Roles;
    if i < |s| {
      DateStepBehind(p, pref, s, i);
      var f := DateStep(p, pref, s, i);
      if f.Next? { RunDateBehind(f.p, pref, s, f.i); }
    }
  }

  /** s with dots over some of its colons and commas, though not over the first byte. */
  predicate Dotted(s: string, d: string) {
    && |d| == |s|
    && forall k :: 0 <= k < |s| ==> d[k] == s[k] || (0 < k && d[k] == '.')
  }

  lemma {:induction false} RunTimeDots(p: Parser, s: string, ds: string, i: nat)
    requires TimeInv(p, ds, i) && Dotted(s, ds)
    ensures var f := RunTime(p, ds, i);
            && (f.Break? ==> Dotted(s, f.ds))
            && (f.Restart? ==> f.keepOptions && Dotted(s, f.s) && '.' in f.s && Dotted(s, f.ds))
    decreases |ds| - i
  {
    hide TimeStep, Roles, Commas;
    if i < |ds| {
      var f := TimeStep(p, ds, i);
      if f.Next? { RunTimeDots(f.p, s, f.ds, f.i); }
      if f.Restart? { assert f.s[i] == '.'; }
    }
  }

  lemma DottedWeekday(s: string, d: string)
    requires Dotted(s, d) && !Weekday(s)
    ensures !Weekday(d)
  {
    if |d| > 3 {
      if d[..4] == s[..4] {
        assert d[..3] == s[..3] && d[3] == s[3];
      } else if d[3] == s[3] {
        var k :| 0 <= k < 3 && d[k] == '.';
        NoDay(d, k);
      }
    }
  }
}

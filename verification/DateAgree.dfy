// Two parses side by side.  The parser looks at a byte only to tell letters from
// digits and to find separators, and never reads its buffer, so parses of strings of
// one shape go the same way; and the month-first preference steers no turn.
module DateAgree {
  import opened DateText
  import opened DateParser

  /** Equal up to replacing digits by digits. */
  predicate SameShape(a: string, b: string) {
    |a| == |b| && forall k :: 0 <= k < |a| ==> a[k] == b[k] || (IsDigit(a[k]) && IsDigit(b[k]))
  }

  /** Equal but for the date spans and what was written into the buffer. */
  ghost predicate Loose(p: Parser, q: Parser) {
    && |q.layout| == |p.layout|
    && q == p.(layout := q.layout, yeari := q.yeari, yearlen := q.yearlen,
               moi := q.moi, molen := q.molen, dayi := q.dayi, daylen := q.daylen)
  }

  ghost predicate Sim(p: Parser, q: Parser, exact: bool) {
    if exact then q == p else Loose(p, q)
  }

  ghost predicate SimFlow(f: Flow, g: Flow, exact: bool) {
    match f
    case Next(p, d, i) => g.Next? && Sim(p, g.p, exact) && g.i == i && SameShape(d, g.ds)
    case Break(p, d, i) => g.Break? && Sim(p, g.p, exact) && g.i == i && SameShape(d, g.ds)
    case Restart(s, k, d) => g.Restart? && g.keepOptions == k && SameShape(s, g.s) && SameShape(d, g.ds)
    case Return(x) =>
      g.Return? && g.res.err == x.err && g.res.p.Some? == x.p.Some?
      && (x.p.Some? ==> Sim(x.p.value, g.res.p.value, exact))
  }

  // ---------------------------------------------------------------- months and days

  predicate AllLetters(w: string) { forall k :: 0 <= k < |w| ==> IsLetter(w[k]) }

  lemma MonthsAreLetters()
    ensures forall w :: w in MONTHS ==> AllLetters(w)
  {
    forall m | 0 <= m < 12 ensures AllLetters(MONTHS[m]) {}
  }

  lemma DaysAreLetters()
    ensures forall w :: w in DAYS ==> AllLetters(w)
  {
    forall m | 0 <= m < 14 ensures AllLetters(DAYS[m]) {}
  }

  lemma LettersFix(s: string, t: string)
    requires SameShape(s, t)
    requires AllLetters(ToLower(s))
    ensures s == t
  {
    forall k | 0 <= k < |s| ensures s[k] == t[k] {
      assert IsLetter(ToLower(s)[k]);
    }
  }

  /** A month or day name holds no digit, so it is the same in every string of its shape. */
  lemma NamesHaveNoDigits(s: string, t: string)
    requires SameShape(s, t)
    ensures IsMonthFull(ToLower(s)) == IsMonthFull(ToLower(t))
    ensures IsMonthFull(ToLower(s)) ==> s == t
    ensures IsDay(ToLower(s)) == IsDay(ToLower(t))
  {
    MonthsAreLetters();
    DaysAreLetters();
    if IsMonthFull(ToLower(s)) || IsDay(ToLower(s)) { LettersFix(s, t); }
    if IsMonthFull(ToLower(t)) || IsDay(ToLower(t)) { LettersFix(t, s); }
  }

  // ---------------------------------------------------------------- one turn

  lemma DigitsAgree(p: Parser, pref: bool, s: string, t: string, i: nat)
    requires DateAt(p, s, i) && DateAt(p, t, i) && SameShape(s, t)
    ensures SimFlow(DigitsStep(p, pref, s, i), DigitsStep(p, pref, t, i), true)
  {
    hide Write, Either, Roles, Loose, DateFlowInv, OnDigit;
    if p.stateDate.DateDigit? {
      DigitAgree(p, pref, s, t, i);
    }
  }

  lemma DigitSlash1Agree(p: Parser, pref: bool, s: string, t: string, i: nat)
    requires DateAt(p, s, i) && DateAt(p, t, i) && SameShape(s, t) && p.stateDate.DateDigit?
    ensures SimFlow(OnDigitSlash1(p, pref, s, i), OnDigitSlash1(p, pref, t, i), true)
    ensures SimFlow(OnDigitColon1(p, pref, s, i), OnDigitColon1(p, pref, t, i), true)
    ensures SimFlow(OnDigitDot1(p, s, i), OnDigitDot1(p, t, i), true)
  {
    hide Write, Either, Roles, Loose, DateFlowInv;
  }

  lemma DigitAgree(p: Parser, pref: bool, s: string, t: string, i: nat)
    requires DateAt(p, s, i) && DateAt(p, t, i) && SameShape(s, t) && p.stateDate.DateDigit?
    ensures SimFlow(OnDigit(p, pref, s, i), OnDigit(p, pref, t, i), true)
  {
    hide Write, Either, Roles, Loose, DateFlowInv, OnDigitSlash1, OnDigitColon1, OnDigitDot1;
    DigitSlash1Agree(p, pref, s, t, i);
  }

  lemma DashesAgree(p: Parser, s: string, t: string, i: nat)
    requires DateAt(p, s, i) && DateAt(p, t, i) && SameShape(s, t)
    ensures SimFlow(DashesStep(p, s, i), DashesStep(p, t, i), true)
  {
    hide Write, Either, Roles, Loose, DateFlowInv;
  }

  lemma DayDashesAgree(p: Parser, s: string, t: string, i: nat)
    requires DateAt(p, s, i) && DateAt(p, t, i) && SameShape(s, t)
    ensures SimFlow(DayDashesStep(p, s, i), DayDashesStep(p, t, i), true)
  {
    hide Write, Either, Roles, Loose, DateFlowInv;
  }

  lemma SlashesAgree(p: Parser, pref: bool, s: string, t: string, i: nat)
    requires DateAt(p, s, i) && DateAt(p, t, i) && SameShape(s, t)
    ensures SimFlow(SlashesStep(p, pref, s, i), SlashesStep(p, pref, t, i), true)
  {
    hide Write, Either, Roles, Loose, DateFlowInv, OnDigitColon, OnDigitSlash;
    if p.stateDate.DateDigitColon? || p.stateDate.DateDigitSlash? { SecondSeparatorAgrees(p, pref, s, t, i); }
  }

  lemma SecondSeparatorAgrees(p: Parser, pref: bool, s: string, t: string, i: nat)
    requires DateAt(p, s, i) && DateAt(p, t, i) && SameShape(s, t)
    ensures p.stateDate.DateDigitColon? ==> SimFlow(OnDigitColon(p, pref, s, i), OnDigitColon(p, pref, t, i), true)
    ensures p.stateDate.DateDigitSlash? ==> SimFlow(OnDigitSlash(p, pref, s, i), OnDigitSlash(p, pref, t, i), true)
  {
    hide Write, Either, Roles, Loose, DateFlowInv;
  }

  lemma WordsAgree(p: Parser, s: string, t: string, i: nat)
    requires DateAt(p, s, i) && DateAt(p, t, i) && SameShape(s, t)
    ensures SimFlow(WordsStep(p, s, i), WordsStep(p, t, i), true)
  {
    hide Write, Either, Roles, Loose, DateFlowInv, OnAlpha;
    if p.stateDate.DateAlpha? {
      AlphaAgree(p, s, t, i);
    }
  }

  lemma AlphaSpaceAgrees(p: Parser, s: string, t: string, i: nat)
    requires DateAt(p, s, i) && DateAt(p, t, i) && SameShape(s, t) && p.stateDate.DateAlpha?
    ensures SimFlow(OnAlphaSpace(p, s, i), OnAlphaSpace(p, t, i), true)
  {
    hide Roles, Loose, DateFlowInv, IsMonthFull, IsDay;
    NamesHaveNoDigits(s[..i], t[..i]);
  }

  lemma AlphaAgree(p: Parser, s: string, t: string, i: nat)
    requires DateAt(p, s, i) && DateAt(p, t, i) && SameShape(s, t) && p.stateDate.DateAlpha?
    ensures SimFlow(OnAlpha(p, s, i), OnAlpha(p, t, i), true)
  {
    hide Write, Either, Roles, Loose, DateFlowInv, OnAlphaSpace;
    AlphaSpaceAgrees(p, s, t, i);
  }

  lemma SuffixAgrees(p: Parser, s: string, t: string, i: nat)
    requires DateAt(p, s, i) && DateAt(p, t, i) && SameShape(s, t) && p.stateDate.DateAlphaWsMonthSuffix?
    ensures SimFlow(OnAlphaWsMonthSuffix(p, s, i), OnAlphaWsMonthSuffix(p, t, i), true)
  {
    hide Roles, Loose, DateFlowInv;
  }

  lemma MonthAgrees(p: Parser, s: string, t: string, i: nat)
    requires DateAt(p, s, i) && DateAt(p, t, i) && SameShape(s, t) && p.stateDate.DateAlphaWsMonth?
    ensures SimFlow(OnAlphaWsMonth(p, s, i), OnAlphaWsMonth(p, t, i), true)
  {
    hide Write, Either, Roles, Loose, DateFlowInv;
  }

  lemma MonthsAgree(p: Parser, s: string, t: string, i: nat)
    requires DateAt(p, s, i) && DateAt(p, t, i) && SameShape(s, t)
    ensures SimFlow(MonthsStep(p, s, i), MonthsStep(p, t, i), true)
  {
    hide Write, Either, Roles, Loose, DateFlowInv, OnAlphaWsMonthSuffix, OnAlphaWsMonth;
    if p.stateDate.DateAlphaWsMonthSuffix? { SuffixAgrees(p, s, t, i); }
    if p.stateDate.DateAlphaWsMonth? { MonthAgrees(p, s, t, i); }
  }

  lemma WeekdaysAgree(p: Parser, s: string, t: string, i: nat)
    requires DateAt(p, s, i) && DateAt(p, t, i) && SameShape(s, t)
    ensures SimFlow(WeekdaysStep(p, s, i), WeekdaysStep(p, t, i), true)
  {
    hide Write, Either, Roles, Loose, DateFlowInv;
  }

  /** A turn of the date loop is the same on every string of one shape. */
  lemma DateStepAgrees(p: Parser, pref: bool, s: string, t: string, i: nat)
    requires DateAt(p, s, i) && SameShape(s, t)
    ensures DateAt(p, t, i)
    ensures SimFlow(DateStep(p, pref, s, i), DateStep(p, pref, t, i), true)
  {
    hide Roles, Loose, DateFlowInv, DigitsStep, DashesStep, DayDashesStep, SlashesStep, WordsStep, MonthsStep, WeekdaysStep;
    DigitsAgree(p, pref, s, t, i);
    DashesAgree(p, s, t, i);
    DayDashesAgree(p, s, t, i);
    SlashesAgree(p, pref, s, t, i);
    WordsAgree(p, s, t, i);
    MonthsAgree(p, s, t, i);
    WeekdaysAgree(p, s, t, i);
  }

  // ---------------------------------------------------------------- one turn, time

  lemma WsAlphaAgrees(p: Parser, q: Parser, exact: bool, s: string, t: string, i: nat)
    requires TimeAt(p, s, i) && TimeAt(q, t, i) && Sim(p, q, exact) && SameShape(s, t)
    requires p.stateTime.TimeWsAlpha?
    ensures SimFlow(OnTimeWsAlpha(p, s, i), OnTimeWsAlpha(q, t, i), exact)
  {
    hide Write, Either, Roles, Commas, TimeFlowInv;
  }

  lemma WsAgrees(p: Parser, q: Parser, exact: bool, s: string, t: string, i: nat)
    requires TimeAt(p, s, i) && TimeAt(q, t, i) && Sim(p, q, exact) && SameShape(s, t)
    requires p.stateTime.TimeWs?
    ensures SimFlow(OnTimeWs(p, s, i), OnTimeWs(q, t, i), exact)
  {
    hide Write, Either, Roles, Commas, TimeFlowInv;
  }

  lemma HalfDayAgrees(p: Parser, q: Parser, exact: bool, s: string, t: string, i: nat)
    requires TimeAt(p, s, i) && TimeAt(q, t, i) && Sim(p, q, exact) && SameShape(s, t)
    requires p.stateTime.TimeWsAMPMMaybe?
    ensures SimFlow(OnTimeWsAMPMMaybe(p, s, i), OnTimeWsAMPMMaybe(q, t, i), exact)
  {
    hide Write, Either, Roles, Commas, TimeFlowInv;
  }

  lemma AbbreviationAgrees(p: Parser, q: Parser, exact: bool, s: string, t: string, i: nat)
    requires TimeAt(p, s, i) && TimeAt(q, t, i) && Sim(p, q, exact) && SameShape(s, t)
    requires !p.stateTime.TimeStart?
    ensures SimFlow(AbbreviationStep(p, s, i), AbbreviationStep(q, t, i), exact)
  {
    hide Write, Either, Roles, Commas, TimeFlowInv, OnTimeWs, OnTimeWsAlpha, OnTimeWsAMPMMaybe;
    if p.stateTime.TimeWs? { WsAgrees(p, q, exact, s, t, i); }
    else if p.stateTime.TimeWsAlpha? { WsAlphaAgrees(p, q, exact, s, t, i); }
    else if p.stateTime.TimeWsAMPMMaybe? { HalfDayAgrees(p, q, exact, s, t, i); }
  }

  lemma ZoneOffsetAgrees(p: Parser, q: Parser, exact: bool, s: string, t: string, i: nat)
    requires TimeAt(p, s, i) && TimeAt(q, t, i) && Sim(p, q, exact) && SameShape(s, t)
    requires p.stateTime.TimeWsAlphaZoneOffset?
    ensures SimFlow(OnTimeWsAlphaZoneOffset(p, s, i), OnTimeWsAlphaZoneOffset(q, t, i), exact)
  {
    hide Write, Either, Roles, Commas, TimeFlowInv;
  }

  lemma ZoneSpaceAgrees(p: Parser, q: Parser, exact: bool, s: string, t: string, i: nat)
    requires TimeAt(p, s, i) && TimeAt(q, t, i) && Sim(p, q, exact) && SameShape(s, t)
    requires p.stateTime.TimeWsAlphaZoneOffsetWs?
    ensures SimFlow(OnTimeWsAlphaZoneOffsetWs(p, s, i), OnTimeWsAlphaZoneOffsetWs(q, t, i), exact)
  {
    hide Write, Either, Roles, Commas, TimeFlowInv;
  }

  lemma ZoneYearAgrees(p: Parser, q: Parser, exact: bool, s: string, t: string, i: nat)
    requires TimeAt(p, s, i) && TimeAt(q, t, i) && Sim(p, q, exact) && SameShape(s, t)
    requires p.stateTime.TimeWsAlphaZoneOffsetWsYear?
    ensures SimFlow(OnTimeWsAlphaZoneOffsetWsYear(p, s, i), OnTimeWsAlphaZoneOffsetWsYear(q, t, i), exact)
  {
    hide Write, Either, Roles, Commas, TimeFlowInv;
  }

  lemma NamedAgrees(p: Parser, q: Parser, exact: bool, s: string, t: string, i: nat)
    requires TimeAt(p, s, i) && TimeAt(q, t, i) && Sim(p, q, exact) && SameShape(s, t)
    requires !p.stateTime.TimeStart?
    ensures SimFlow(NamedStep(p, s, i), NamedStep(q, t, i), exact)
  {
    hide Write, Either, Roles, Commas, TimeFlowInv;
    hide OnTimeWsAlphaZoneOffset, OnTimeWsAlphaZoneOffsetWs, OnTimeWsAlphaZoneOffsetWsYear;
    if p.stateTime.TimeWsAlphaZoneOffset? { ZoneOffsetAgrees(p, q, exact, s, t, i); }
    else if p.stateTime.TimeWsAlphaZoneOffsetWs? { ZoneSpaceAgrees(p, q, exact, s, t, i); }
    else if p.stateTime.TimeWsAlphaZoneOffsetWsYear? { ZoneYearAgrees(p, q, exact, s, t, i); }
  }

  lemma MonotonicAgrees(p: Parser, q: Parser, exact: bool, s: string, t: string, i: nat)
    requires TimeAt(p, s, i) && TimeAt(q, t, i) && Sim(p, q, exact) && SameShape(s, t)
    requires p.stateTime.TimeWsOffsetWs? || p.stateTime.TimePeriodWsOffsetWsAlpha?
    ensures SimFlow(OnTimeMonotonic(p, s, i), OnTimeMonotonic(q, t, i), exact)
  {
    hide Write, Either, Roles, Commas, TimeFlowInv;
  }

  lemma ExtraZoneAgrees(p: Parser, q: Parser, exact: bool, s: string, t: string, i: nat)
    requires TimeAt(p, s, i) && TimeAt(q, t, i) && Sim(p, q, exact) && SameShape(s, t)
    requires p.stateTime.TimeWsOffset? || p.stateTime.TimePeriodWsOffset?
    ensures SimFlow(OnTimeExtraZone(p, s, i), OnTimeExtraZone(q, t, i), exact)
  {
    hide Write, Either, Roles, Commas, TimeFlowInv;
  }

  lemma WsOffsetWsAgrees(p: Parser, q: Parser, exact: bool, s: string, t: string, i: nat)
    requires TimeAt(p, s, i) && TimeAt(q, t, i) && Sim(p, q, exact) && SameShape(s, t)
    requires p.stateTime.TimeWsOffsetWs?
    ensures SimFlow(OnTimeWsOffsetWs(p, s, i), OnTimeWsOffsetWs(q, t, i), exact)
  {
    hide Write, Either, Commas, TimeFlowInv, OnTimeMonotonic, OnTimeExtraZone;
    MonotonicAgrees(p, q, exact, s, t, i);
    ExtraZoneAgrees(p.(stateTime := TimeWsOffset), q.(stateTime := TimeWsOffset), exact, s, t, i);
  }

  lemma OffsetAgrees(p: Parser, q: Parser, exact: bool, s: string, t: string, i: nat)
    requires TimeAt(p, s, i) && TimeAt(q, t, i) && Sim(p, q, exact) && SameShape(s, t)
    requires !p.stateTime.TimeStart?
    ensures SimFlow(OffsetStep(p, s, i), OffsetStep(q, t, i), exact)
  {
    hide Write, Either, Roles, Commas, TimeFlowInv, OnTimeWsOffsetWs;
    if p.stateTime.TimeWsOffsetWs? { WsOffsetWsAgrees(p, q, exact, s, t, i); }
  }

  lemma FractionAgrees(p: Parser, q: Parser, exact: bool, s: string, t: string, i: nat)
    requires TimeAt(p, s, i) && TimeAt(q, t, i) && Sim(p, q, exact) && SameShape(s, t)
    requires p.stateTime.TimePeriod?
    ensures SimFlow(OnTimePeriod(p, s, i), OnTimePeriod(q, t, i), exact)
  {
    hide Write, Either, Roles, Commas, TimeFlowInv;
  }

  lemma FractionOffsetAgrees(p: Parser, q: Parser, exact: bool, s: string, t: string, i: nat)
    requires TimeAt(p, s, i) && TimeAt(q, t, i) && Sim(p, q, exact) && SameShape(s, t)
    requires p.stateTime.TimePeriodOffset?
    ensures SimFlow(OnTimePeriodOffset(p, s, i), OnTimePeriodOffset(q, t, i), exact)
  {
    hide Write, Either, Roles, Commas, TimeFlowInv;
  }

  lemma FractionColonAgrees(p: Parser, q: Parser, exact: bool, s: string, t: string, i: nat)
    requires TimeAt(p, s, i) && TimeAt(q, t, i) && Sim(p, q, exact) && SameShape(s, t)
    requires p.stateTime.TimePeriodOffsetColon?
    ensures SimFlow(OnTimePeriodOffsetColon(p, s, i), OnTimePeriodOffsetColon(q, t, i), exact)
  {
    hide Write, Either, Roles, Commas, TimeFlowInv;
  }

  lemma FractionSpaceAgrees(p: Parser, q: Parser, exact: bool, s: string, t: string, i: nat)
    requires TimeAt(p, s, i) && TimeAt(q, t, i) && Sim(p, q, exact) && SameShape(s, t)
    requires p.stateTime.TimePeriodWs?
    ensures SimFlow(OnTimePeriodWs(p, s, i), OnTimePeriodWs(q, t, i), exact)
  {
    hide Write, Either, Roles, Commas, TimeFlowInv;
  }

  lemma PeriodAgrees(p: Parser, q: Parser, exact: bool, s: string, t: string, i: nat)
    requires TimeAt(p, s, i) && TimeAt(q, t, i) && Sim(p, q, exact) && SameShape(s, t)
    requires !p.stateTime.TimeStart?
    ensures SimFlow(PeriodStep(p, s, i), PeriodStep(q, t, i), exact)
  {
    hide Write, Either, Roles, Commas, TimeFlowInv, OnTimePeriod, OnTimePeriodOffset, OnTimePeriodOffsetColon, OnTimePeriodWs;
    if p.stateTime.TimePeriod? { FractionAgrees(p, q, exact, s, t, i); }
    else if p.stateTime.TimePeriodOffset? { FractionOffsetAgrees(p, q, exact, s, t, i); }
    else if p.stateTime.TimePeriodOffsetColon? { FractionColonAgrees(p, q, exact, s, t, i); }
    else if p.stateTime.TimePeriodWs? { FractionSpaceAgrees(p, q, exact, s, t, i); }
  }

  lemma PeriodOffsetAgrees(p: Parser, q: Parser, exact: bool, s: string, t: string, i: nat)
    requires TimeAt(p, s, i) && TimeAt(q, t, i) && Sim(p, q, exact) && SameShape(s, t)
    requires !p.stateTime.TimeStart?
    ensures SimFlow(PeriodOffsetStep(p, s, i), PeriodOffsetStep(q, t, i), exact)
  {
    hide Write, Either, Roles, Commas, TimeFlowInv, OnTimeMonotonic, OnTimeExtraZone;
    if p.stateTime.TimePeriodWsOffsetWsAlpha? { MonotonicAgrees(p, q, exact, s, t, i); }
    if p.stateTime.TimePeriodWsOffset? { ExtraZoneAgrees(p, q, exact, s, t, i); }
  }

  lemma TimeSignAgrees(p: Parser, q: Parser, exact: bool, s: string, t: string, i: nat)
    requires TimeAt(p, s, i) && TimeAt(q, t, i) && Sim(p, q, exact) && SameShape(s, t)
    requires p.stateTime.TimeStart?
    ensures SimFlow(OnTimeSign(p, s, i), OnTimeSign(q, t, i), exact)
  {
    hide Write, Either, Zeros, Roles, Commas, TimeFlowInv;
  }

  lemma TimeZuluAgrees(p: Parser, q: Parser, exact: bool, s: string, t: string, i: nat)
    requires TimeAt(p, s, i) && TimeAt(q, t, i) && Sim(p, q, exact) && SameShape(s, t)
    requires p.stateTime.TimeStart?
    ensures SimFlow(OnTimeZulu(p, s, i), OnTimeZulu(q, t, i), exact)
  {
    hide Write, Either, Zeros, Roles, Commas, TimeFlowInv;
  }

  lemma TimeHalfAgrees(p: Parser, q: Parser, exact: bool, s: string, t: string, i: nat)
    requires TimeAt(p, s, i) && TimeAt(q, t, i) && Sim(p, q, exact) && SameShape(s, t)
    requires p.stateTime.TimeStart?
    ensures SimFlow(OnTimeHalf(p, s, i), OnTimeHalf(q, t, i), exact)
  {
    hide Write, Either, Zeros, Roles, Commas, TimeFlowInv;
  }

  lemma TimeAAgrees(p: Parser, q: Parser, exact: bool, s: string, t: string, i: nat)
    requires TimeAt(p, s, i) && TimeAt(q, t, i) && Sim(p, q, exact) && SameShape(s, t)
    requires p.stateTime.TimeStart?
    ensures SimFlow(OnTimeA(p, s, i), OnTimeA(q, t, i), exact)
  {
    hide Write, Either, Zeros, Roles, Commas, TimeFlowInv, OnTimeHalf;
    TimeHalfAgrees(p, q, exact, s, t, i);
  }

  lemma TimeSpaceAgrees(p: Parser, q: Parser, exact: bool, s: string, t: string, i: nat)
    requires TimeAt(p, s, i) && TimeAt(q, t, i) && Sim(p, q, exact) && SameShape(s, t)
    requires p.stateTime.TimeStart?
    ensures SimFlow(OnTimeSpace(p, s, i), OnTimeSpace(q, t, i), exact)
  {
    hide Write, Either, Zeros, Roles, Commas, TimeFlowInv;
  }

  lemma TimeColonAgrees(p: Parser, q: Parser, exact: bool, s: string, t: string, i: nat)
    requires TimeAt(p, s, i) && TimeAt(q, t, i) && Sim(p, q, exact) && SameShape(s, t)
    requires p.stateTime.TimeStart? && s[i] == ':' == t[i]
    ensures SimFlow(OnTimeColon(p, s, i), OnTimeColon(q, t, i), exact)
  {
    hide Write, Either, Zeros, Roles, Commas, TimeFlowInv;
  }

  lemma TimeCharAgrees(p: Parser, q: Parser, exact: bool, s: string, t: string, i: nat)
    requires TimeAt(p, s, i) && TimeAt(q, t, i) && Sim(p, q, exact) && SameShape(s, t) && p.stateTime.TimeStart?
    ensures SimFlow(OnTimeChar(p, s, i), OnTimeChar(q, t, i), exact)
  {
    hide Roles, Commas, TimeFlowInv, OnTimeSign, OnTimeZulu, OnTimeHalf, OnTimeA, OnTimeSpace, OnTimeColon;
    match s[i]
    case ':' => TimeColonAgrees(p, q, exact, s, t, i);
    case '-' => TimeSignAgrees(p, q, exact, s, t, i);
    case '+' => TimeSignAgrees(p, q, exact, s, t, i);
    case 'Z' => TimeZuluAgrees(p, q, exact, s, t, i);
    case 'a' => TimeAAgrees(p, q, exact, s, t, i);
    case 'A' => TimeAAgrees(p, q, exact, s, t, i);
    case 'p' => TimeHalfAgrees(p, q, exact, s, t, i);
    case 'P' => TimeHalfAgrees(p, q, exact, s, t, i);
    case ' ' => TimeSpaceAgrees(p, q, exact, s, t, i);
    case _ =>
  }

  lemma TimeStartAgrees(p: Parser, q: Parser, exact: bool, s: string, t: string, i: nat)
    requires TimeAt(p, s, i) && TimeAt(q, t, i) && Sim(p, q, exact) && SameShape(s, t) && p.stateTime.TimeStart?
    ensures SimFlow(OnTimeStart(p, s, i), OnTimeStart(q, t, i), exact)
  {
    hide Commas, TimeFlowInv, OnTimeChar;
    TimeCharAgrees(if p.houri == 0 then p.(houri := i) else p, if q.houri == 0 then q.(houri := i) else q,
                   exact, s, t, i);
  }

  /** A turn of the time loop keeps two parses alike. */
  lemma TimeStepAgrees(p: Parser, q: Parser, exact: bool, s: string, t: string, i: nat)
    requires TimeAt(p, s, i) && TimeAt(q, t, i) && Sim(p, q, exact) && SameShape(s, t)
    ensures SimFlow(TimeStep(p, s, i), TimeStep(q, t, i), exact)
  {
    hide Roles, TimeFlowInv, OnTimeStart, AbbreviationStep, NamedStep, OffsetStep, PeriodStep, PeriodOffsetStep;
    if p.stateTime.TimeStart? {
      TimeStartAgrees(p, q, exact, s, t, i);
    } else {
      AbbreviationAgrees(p, q, exact, s, t, i);
      NamedAgrees(p, q, exact, s, t, i);
      OffsetAgrees(p, q, exact, s, t, i);
      PeriodAgrees(p, q, exact, s, t, i);
      PeriodOffsetAgrees(p, q, exact, s, t, i);
    }
  }
}

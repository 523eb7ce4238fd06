// Walking through a string: a state passes over the bytes it does not mind, and stops at
// those it does.
module DateWalk {
  import opened DateText
  import opened DateParser

  // ---------------------------------------------------------------- the date loop

  /** Bytes that a state of the date loop passes over. */
  predicate Quiet(d: DateState, c: char) {
    match d
    case DateDigit | DateYearDash | DateYearDashDash | DateAlphaWsDigit | DateAlphaWsDigitYearmaybe
       | DateAlphaWsDigitMoreWs | DateAlphaWsMonthMore | DateAlphaWsMore => IsDigit(c)
    case DateAlpha => IsLetter(c)
    case DateYearDashDashOffset => c != ':'
    case DateYearDashAlphaDash | DateDigitDashAlpha => c != '-'
    case DateDigitDashAlphaDash | DateDigitWs | DateAlphaWsDigitMore => c != ' '
    case DateDigitYearSlash | DateDigitSlashAlpha => c != '/' && c != ' ' && c != ':'
    case DateDigitSlash => c != '/' && c != ' '
    case DateDigitColon => c != ':' && c != ' '
    case DateDigitWsMoYear => c != ',' && c != ' '
    case DateDigitDot => c != '.'
    case DateWeekdayAbbrevComma => c != ' ' && c != '-'
    case DateDigitWsMolong | DateDigitDotDot | DateYearDashDashT => true
    case _ => false
  }

  lemma DateRests(p: Parser, pref: bool, s: string, i: nat)
    requires DateAt(p, s, i) && Quiet(p.stateDate, s[i])
    ensures DateStep(p, pref, s, i) == Next(p, s, i + 1)
  {
    hide Write, Either, Roles, DateFlowInv, OnDigitSlash1, OnDigitColon1, OnDigitDot1, OnAlphaSpace;
  }

  predicate QuietAll(d: DateState, s: string, i: nat, j: nat) {
    i <= j <= |s| && forall k :: i <= k < j ==> Quiet(d, s[k])
  }

  lemma {:induction false} DatePasses(p: Parser, pref: bool, s: string, i: nat, j: nat)
    requires DateInv(p, s, i) && QuietAll(p.stateDate, s, i, j)
    ensures DateInv(p, s, j) && RunDate(p, pref, s, i) == RunDate(p, pref, s, j)
    decreases j - i
  {
    hide DateStep, Roles, Quiet;
    if i < j {
      DateRests(p, pref, s, i);
      DatePasses(p, pref, s, i + 1, j);
    }
  }

  /** What a turn does, by the state it is made in. */
  function DateTurn(p: Parser, pref: bool, s: string, i: nat): Flow
    requires DateAt(p, s, i)
  {
    match p.stateDate
    case DateStart => OnStart(p, s, i)
    case DateDigit => OnDigit(p, pref, s, i)
    case DateDigitSt => OnDigitSt(p, s, i)
    case DateDigitWs => OnDigitWs(p, s, i)
    case DateDigitWsMoYear => OnDigitWsMoYear(p, s, i)
    case DateDigitDot => OnDigitDot(p, s, i)
    case DateYearDash => OnYearDash(p, s, i)
    case DateYearDashDash => OnYearDashDash(p, s, i)
    case DateYearDashDashOffset => OnYearDashDashOffset(p, s, i)
    case DateYearDashAlphaDash => OnYearDashAlphaDash(p, s, i)
    case DateDigitDash => OnDigitDash(p, s, i)
    case DateDigitDashAlpha => OnDigitDashAlpha(p, s, i)
    case DateDigitDashAlphaDash => OnDigitDashAlphaDash(p, s, i)
    case DateDigitYearSlash => OnDigitYearSlash(p, s, i)
    case DateDigitSlashAlpha => OnDigitSlashAlpha(p, s, i)
    case DateDigitSlash => OnDigitSlash(p, pref, s, i)
    case DateDigitColon => OnDigitColon(p, pref, s, i)
    case DateAlpha => OnAlpha(p, s, i)
    case DateAlphaWs => OnAlphaWs(p, s, i)
    case DateAlphaWsDigit => OnAlphaWsDigit(p, s, i)
    case DateAlphaWsDigitYearmaybe => OnAlphaWsDigitYearmaybe(p, s, i)
    case DateAlphaWsDigitMore => OnAlphaWsDigitMore(p, s, i)
    case DateAlphaWsDigitMoreWs => OnAlphaWsDigitMoreWs(p, s, i)
    case DateAlphaPeriodWsDigit => OnAlphaPeriodWsDigit(p, s, i)
    case DateAlphaWsMonth => OnAlphaWsMonth(p, s, i)
    case DateAlphaWsMonthMore => OnAlphaWsMonthMore(p, s, i)
    case DateAlphaWsMonthSuffix => OnAlphaWsMonthSuffix(p, s, i)
    case DateAlphaWsMore => OnAlphaWsMore(p, s, i)
    case DateWeekdayComma => OnWeekdayComma(p, s, i)
    case DateWeekdayAbbrevComma => OnWeekdayAbbrevComma(p, s, i)
    case DateYearDashDashT | DateDigitWsMolong | DateDigitDotDot => Next(p, s, i + 1)
    case DateYearDashDashWs | DateAlphaWsDigitMoreWsYear | DateAlphaWsAlpha => Break(p, s, i)
  }

  lemma DateStepTurns(p: Parser, pref: bool, s: string, i: nat)
    requires DateAt(p, s, i)
    ensures DateStep(p, pref, s, i) == DateTurn(p, pref, s, i)
  {
    hide Roles, DateFlowInv, OnStart, OnDigit, OnDigitSt, OnDigitWs, OnDigitWsMoYear, OnDigitDot, OnYearDash, OnYearDashDash;
    hide OnYearDashDashOffset, OnYearDashAlphaDash, OnDigitDash, OnDigitDashAlpha, OnDigitDashAlphaDash, OnDigitYearSlash;
    hide OnDigitSlashAlpha, OnDigitSlash, OnDigitColon, OnAlpha, OnAlphaWs, OnAlphaWsDigit, OnAlphaWsDigitYearmaybe;
    hide OnAlphaWsDigitMore, OnAlphaWsDigitMoreWs, OnAlphaPeriodWsDigit, OnAlphaWsMonth, OnAlphaWsMonthMore;
    hide OnAlphaWsMonthSuffix, OnAlphaWsMore, OnWeekdayComma, OnWeekdayAbbrevComma;
  }

  /** Up to j, and one turn there. */
  lemma DateHop(p: Parser, pref: bool, s: string, i: nat, j: nat, q: Parser)
    requires DateInv(p, s, i) && QuietAll(p.stateDate, s, i, j) && j < |s|
    requires DateInv(p, s, j) ==> DateTurn(p, pref, s, j) == Next(q, s, j + 1)
    ensures DateInv(q, s, j + 1) && RunDate(p, pref, s, i) == RunDate(q, pref, s, j + 1)
  {
    hide DateStep, DateTurn, Roles;
    DatePasses(p, pref, s, i, j);
    DateStepTurns(p, pref, s, j);
  }

  /** Up to j, and a turn there that takes the byte behind it too. */
  lemma DateHopsTwo(p: Parser, pref: bool, s: string, i: nat, j: nat, q: Parser)
    requires DateInv(p, s, i) && QuietAll(p.stateDate, s, i, j) && j < |s|
    requires DateInv(p, s, j) ==> DateTurn(p, pref, s, j) == Next(q, s, j + 2)
    ensures DateInv(q, s, j + 2) && RunDate(p, pref, s, i) == RunDate(q, pref, s, j + 2)
  {
    hide DateStep, DateTurn, Roles;
    DatePasses(p, pref, s, i, j);
    DateStepTurns(p, pref, s, j);
  }

  /** Up to j, where the loop is left. */
  lemma DateLeaves(p: Parser, pref: bool, s: string, i: nat, j: nat, q: Parser, k: int)
    requires DateInv(p, s, i) && QuietAll(p.stateDate, s, i, j) && j < |s|
    requires DateInv(p, s, j) ==> DateTurn(p, pref, s, j) == Break(q, s, k)
    ensures RunDate(p, pref, s, i) == Break(q, s, k) && DateEndInv(q, s, k)
  {
    hide DateStep, DateTurn, Roles;
    DatePasses(p, pref, s, i, j);
    DateStepTurns(p, pref, s, j);
  }

  lemma DateEnds(p: Parser, pref: bool, s: string, i: nat)
    requires DateInv(p, s, i) && QuietAll(p.stateDate, s, i, |s|)
    ensures RunDate(p, pref, s, i) == Break(p, s, |s|)
  {
    hide DateStep, Roles;
    DatePasses(p, pref, s, i, |s|);
  }

  lemma FirstNumber(s: string, pref: bool, n: nat)
    requires 1 <= n <= |s| && forall k :: 0 <= k < n ==> IsDigit(s[k])
    ensures var p := NewParser(|s|).(stateDate := DateDigit);
            DateInv(p, s, n) && RunDate(NewParser(|s|), pref, s, 0) == RunDate(p, pref, s, n)
  {
    hide DateStep;
    var p := NewParser(|s|);
    assert DateStep(p, pref, s, 0) == Next(p.(stateDate := DateDigit), s, 1) by { StartsWithDigit(s, pref); }
    DatePasses(p.(stateDate := DateDigit), pref, s, 1, n);
  }

  lemma StartsWithDigit(s: string, pref: bool)
    requires |s| > 0 && IsDigit(s[0])
    ensures DateStep(NewParser(|s|), pref, s, 0) == Next(NewParser(|s|).(stateDate := DateDigit), s, 1)
  {}

  lemma FirstWord(s: string, pref: bool, n: nat)
    requires 1 <= n <= |s| && forall k :: 0 <= k < n ==> IsLetter(s[k])
    ensures var p := NewParser(|s|).(stateDate := DateAlpha);
            DateInv(p, s, n) && RunDate(NewParser(|s|), pref, s, 0) == RunDate(p, pref, s, n)
  {
    hide DateStep;
    var p := NewParser(|s|);
    assert DateStep(p, pref, s, 0) == Next(p.(stateDate := DateAlpha), s, 1) by { StartsWithLetter(s, pref); }
    DatePasses(p.(stateDate := DateAlpha), pref, s, 1, n);
  }

  lemma StartsWithLetter(s: string, pref: bool)
    requires |s| > 0 && IsLetter(s[0])
    ensures DateStep(NewParser(|s|), pref, s, 0) == Next(NewParser(|s|).(stateDate := DateAlpha), s, 1)
  {}

  // ---------------------------------------------------------------- the time loop

  /** Bytes that a state of the time loop passes over. */
  predicate Still(p: Parser, c: char) {
    match p.stateTime
    case TimeStart => p.houri != 0 && IsDigit(c)
    case TimeWsAlpha => IsLetter(c)
    case TimeWsOffsetWs => p.tzi != 0 && IsLetter(c)
    case TimePeriodWs => p.offseti != 0 && IsDigit(c)
    case TimePeriod | TimePeriodWsOffset | TimePeriodWsOffsetColon => IsDigit(c)
    case TimeWsAlphaZoneOffset | TimePeriodOffsetColon => c != ' '
    case TimeWsOffset => c != ':' && c != ' '
    case TimeWsOffsetColon => !IsLetter(c)
    case TimeOffset | TimePeriodOffset => c != ':'
    case TimePeriodWsOffsetWsAlpha => c != '='
    case TimeZ => !IsDigit(c)
    case TimeZDigit | TimeWsAlphaWs | TimeWsAlphaZoneOffsetWsExtra | TimeWsAMPM | TimeWsYear | TimeOffsetColon
       | TimePeriodOffsetColonWs | TimePeriodWsAlpha | TimePeriodWsOffsetColonAlpha => true
    case _ => false
  }

  lemma TimeRests(p: Parser, s: string, i: nat)
    requires TimeAt(p, s, i) && Still(p, s[i])
    ensures TimeStep(p, s, i) == Next(p, s, i + 1)
  {
    hide Write, Either, Zeros, Roles, TimeFlowInv, Commas, OnTimeMonotonic, OnTimeExtraZone;
  }

  predicate StillAll(p: Parser, s: string, i: nat, j: nat) {
    i <= j <= |s| && forall k :: i <= k < j ==> Still(p, s[k])
  }

  lemma {:induction false} TimePasses(p: Parser, s: string, i: nat, j: nat)
    requires TimeInv(p, s, i) && StillAll(p, s, i, j)
    ensures TimeInv(p, s, j) && RunTime(p, s, i) == RunTime(p, s, j)
    decreases j - i
  {
    hide TimeStep, Roles, Commas, Still;
    if i < j {
      TimeRests(p, s, i);
      TimePasses(p, s, i + 1, j);
    }
  }

  /** What a turn does, by the state it is made in. */
  function TimeTurn(p: Parser, s: string, i: nat): Flow
    requires TimeAt(p, s, i)
  {
    match p.stateTime
    case TimeStart => OnTimeStart(p, s, i)
    case TimeWs => OnTimeWs(p, s, i)
    case TimeWsAlpha => OnTimeWsAlpha(p, s, i)
    case TimeWsAMPMMaybe => OnTimeWsAMPMMaybe(p, s, i)
    case TimeWsAlphaZoneOffset => OnTimeWsAlphaZoneOffset(p, s, i)
    case TimeWsAlphaZoneOffsetWs => OnTimeWsAlphaZoneOffsetWs(p, s, i)
    case TimeWsAlphaZoneOffsetWsYear => OnTimeWsAlphaZoneOffsetWsYear(p, s, i)
    case TimeOffset => OnTimeOffset(p, s, i)
    case TimeZ => OnTimeZ(p, s, i)
    case TimeWsOffset => OnTimeWsOffset(p, s, i)
    case TimeWsOffsetWs => OnTimeWsOffsetWs(p, s, i)
    case TimeWsOffsetColon => OnTimeWsOffsetColon(p, s, i)
    case TimePeriod => OnTimePeriod(p, s, i)
    case TimePeriodOffset => OnTimePeriodOffset(p, s, i)
    case TimePeriodOffsetColon => OnTimePeriodOffsetColon(p, s, i)
    case TimePeriodWs => OnTimePeriodWs(p, s, i)
    case TimePeriodWsOffset => OnTimePeriodWsOffset(p, s, i)
    case TimePeriodWsOffsetWsAlpha => OnTimePeriodWsOffsetWsAlpha(p, s, i)
    case TimePeriodWsOffsetColon => OnTimePeriodWsOffsetColon(p, s, i)
    case _ => Next(p, s, i + 1)
  }

  lemma TimeStepTurns(p: Parser, s: string, i: nat)
    requires TimeAt(p, s, i)
    ensures TimeStep(p, s, i) == TimeTurn(p, s, i)
  {
    hide Roles, Commas, TimeFlowInv, OnTimeStart, OnTimeWs, OnTimeWsAlpha, OnTimeWsAMPMMaybe, OnTimeWsAlphaZoneOffset;
    hide OnTimeWsAlphaZoneOffsetWs, OnTimeWsAlphaZoneOffsetWsYear, OnTimeOffset, OnTimeZ, OnTimeWsOffset, OnTimeWsOffsetWs;
    hide OnTimeWsOffsetColon, OnTimePeriod, OnTimePeriodOffset, OnTimePeriodOffsetColon, OnTimePeriodWs, OnTimePeriodWsOffset;
    hide OnTimePeriodWsOffsetWsAlpha, OnTimePeriodWsOffsetColon;
  }

  /** Up to j, and one turn there. */
  lemma TimeHop(p: Parser, s: string, i: nat, j: nat, q: Parser)
    requires TimeInv(p, s, i) && StillAll(p, s, i, j) && j < |s|
    requires TimeInv(p, s, j) ==> TimeTurn(p, s, j) == Next(q, s, j + 1)
    ensures TimeInv(q, s, j + 1) && RunTime(p, s, i) == RunTime(q, s, j + 1)
  {
    hide TimeStep, TimeTurn, Roles, Commas;
    TimePasses(p, s, i, j);
    TimeStepTurns(p, s, j);
  }

  /** Up to j, where the loop is left. */
  lemma TimeLeaves(p: Parser, s: string, i: nat, j: nat, q: Parser)
    requires TimeInv(p, s, i) && StillAll(p, s, i, j) && j < |s|
    requires TimeInv(p, s, j) ==> TimeTurn(p, s, j) == Break(q, s, j)
    ensures RunTime(p, s, i) == Break(q, s, j) && TimeEndInv(q, s, j)
  {
    hide TimeStep, TimeTurn, Roles, Commas;
    TimePasses(p, s, i, j);
    TimeStepTurns(p, s, j);
  }

  lemma TimeEnds(p: Parser, s: string, i: nat)
    requires TimeInv(p, s, i) && StillAll(p, s, i, |s|)
    ensures RunTime(p, s, i) == Break(p, s, |s|) && TimeInv(p, s, |s|)
  {
    hide TimeStep, Roles, Commas;
    TimePasses(p, s, i, |s|);
  }
}

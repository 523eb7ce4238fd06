// Dates that start with a full month name or with a weekday and a comma.
module DateMonths {
  import opened DateText
  import opened DateParser
  import opened DateWalk
  import opened DateSpelling
  import opened DateTail
  import opened DateFields
  import opened DateStages
  import opened DateNumbers
  import opened DateNames

  /** A month in full; may is too short to be told from an abbreviation. */
  predicate FullName(m: string) { Letters(m) && |m| > 3 && IsMonthFull(ToLower(m)) }

  // ---------------------------------------------------------------- January d, yyyy alone

  lemma {:induction false} MonthDigits(s: string, pref: bool, u: Parser, i: nat, text: string, j: nat)
    requires DateStage(s, pref, u, i, text) && i <= j <= |s| && (forall k :: i <= k < j ==> IsDigit(s[k]))
    requires u.stateDate.DateAlphaWsMonth? && (u.daylen == 0 || u.yeari != 0)
    ensures DateStage(s, pref, u, j, text)
    decreases j - i
  {
    hide RunDate, DateStage, Dated, DateInv, DateEndInv, Three, Render, Write, Roles, DateFlowInv;
    StageLength(s, pref, u, i, text);
    if i < j {
      DateGoes(s, pref, u, i, text, i, u, text);
      MonthDigits(s, pref, u, i + 1, text, j);
    }
  }

  lemma MonthDay(s: string, pref: bool, m: string, d: string, q: string, y: string) returns (w: Parser)
    requires s == Three(m, " ", d, q, y, "") && FullName(m) && OneOrTwo(d) && Digits(y) && y != "" && |d| + |q| + |y| < 9
    requires q == " " || q == ", "
    ensures DateStage(s, pref, w, 2 + |m| + |d|, Three(m, " ", DayLaid(d), q, y, ""))
    ensures w.stateDate.DateAlphaWsMonth? && w.stateTime.TimeIgnore? && w.fullMonth == ToLower(m)
    ensures w.skip == 0 && w.t.None? && w.offseti == 0 && !w.ambiguousMD && Untimed(w) && w.moi == 0 && w.yeari == 0 && w.yearlen == 0
    ensures w.daylen == |d|
  {
    hide RunDate, DateStage, Dated, DateInv, DateEndInv, Three, Render, Write, Roles, DateFlowInv;
    hide IsMonthFull, ToLower, IsDay;
    Fields(m, " ", d, q, y, "", true, false, false);
    assert s[..|m|] == m by { ThreeParts(m, " ", d, q, y, ""); }
    var i := 1 + |m| + |d|;
    assert s[i] == q[0];
    var v := NewParser(|s|).(stateDate := DateAlpha);
    WordBegins(s, pref, |m|);
    RenderFresh(s);
    var u := v.(stateDate := DateAlphaWsMonth, fullMonth := ToLower(m), dayi := |m| + 1);
    DateGoes(s, pref, v, |m|, s, |m|, u, s);
    MonthDigits(s, pref, u, |m| + 1, s, i);
    SecondReads(u.layout, s, m, " ", d, q, y, "", DayLaid(d));
    w := u.(daylen := |d|, layout := Write(u.layout, |m| + 1, DayLaid(d)));
    DateGoes(s, pref, u, i, s, i, w, Three(m, " ", DayLaid(d), q, y, ""));
  }

  lemma MonthDayRun(s: string, pref: bool, m: string, d: string, q: string, y: string) returns (u: Parser)
    requires s == Three(m, " ", d, q, y, "") && FullName(m) && OneOrTwo(d) && Digits(y) && y != "" && |d| + |q| + |y| < 9
    requires q == " " || q == ", "
    ensures DateStage(s, pref, u, |s|, Three(m, " ", DayLaid(d), q, y, "")) && |s| == 1 + |m| + |d| + |q| + |y|
    ensures u.stateDate.DateAlphaWsMonth? && u.stateTime.TimeIgnore? && u.fullMonth == ToLower(m)
    ensures u.skip == 0 && u.t.None? && u.offseti == 0 && !u.ambiguousMD && Untimed(u) && u.moi == 0 && u.yearlen == 0
    ensures u.daylen == |d| && u.yeari == 1 + |m| + |d| + |q|
  {
    hide RunDate, DateStage, Dated, DateInv, DateEndInv, Three, Render, Write, Roles, DateFlowInv;
    hide IsMonthFull, ToLower;
    Fields(m, " ", d, q, y, "", true, false, false);
    var i, before := 1 + |m| + |d| + |q|, Three(m, " ", DayLaid(d), q, y, "");
    var w := MonthDay(s, pref, m, d, q, y);
    StageLength(s, pref, w, 2 + |m| + |d|, before);
    if |q| == 2 {
      assert s[i - 1] == q[1];
      DateGoes(s, pref, w, i - 1, before, i - 1, w, before);
    }
    u := w.(yeari := i);
    DateGoes(s, pref, w, i, before, i, u, before);
    MonthDigits(s, pref, u, i + 1, before, |s|);
  }

  lemma MonthDayYear(s: string, pref: bool, m: string, d: string, q: string, y: string) returns (p: Parser)
    requires s == Three(m, " ", d, q, y, "") && FullName(m) && OneOrTwo(d) && Digits(y) && y != "" && |d| + |q| + |y| < 9
    requires q == " " || q == ", "
    ensures Lays(Scan(s, pref), p, s, |s|, Three(m, " ", DayLaid(d), q, YearCode(y), ""), false)
    ensures p.fullMonth == ToLower(m) && p.moi == 0 && p.skip == 0 && p.t.None? && !p.ambiguousMD
  {
    hide RunDate, DateStage, Dated, DateInv, DateEndInv, Three, Render, Write, Roles, DateFlowInv;
    hide FullName, ToLower, Scan, Lays;
    var i, before, text := 1 + |m| + |d| + |q|, Three(m, " ", DayLaid(d), q, y, ""), Three(m, " ", DayLaid(d), q, YearCode(y), "");
    var u := MonthDayRun(s, pref, m, d, q, y);
    StageLength(s, pref, u, |s|, before);
    p := u.CoalesceDate(|s|);
    YearReads(u.layout, s, m, " ", DayLaid(d), q, y, "");
    DateRunsOut(s, pref, u, |s|, before, text);
    DatedLength(s, pref, p, |s|, text);
    YearReads(p.layout, s, m, " ", DayLaid(d), q, YearCode(y), "");
    FinishedAlone(s, pref, p, text, p.(layout := Either(p.layout, i, |y|, 2, "06", 4, "2006")), text);
  }

  // ---------------------------------------------------------------- January d, yyyy and a clock

  lemma MonthMoreBegins(s: string, pref: bool, m: string, d: string, q: string, y: string, r: string) returns (u: Parser)
    requires s == Three(m, " ", d, q, y, r) && FullName(m) && OneOrTwo(d) && Digits(y) && y != "" && |d| + |q| + |y| + |r| >= 9
    ensures DateStage(s, pref, u, |m| + 1, s)
    ensures u == NewParser(|s|).(stateDate := DateAlphaWsMore, fullMonth := ToLower(m), dayi := |m| + 1)
  {
    hide RunDate, DateStage, Dated, DateInv, DateEndInv, Three, Render, Write, Roles, DateFlowInv;
    hide IsMonthFull, ToLower, IsDay;
    Fields(m, " ", d, q, y, r, true, false, false);
    assert s[..|m|] == m by { ThreeParts(m, " ", d, q, y, r); }
    var v := NewParser(|s|).(stateDate := DateAlpha);
    WordBegins(s, pref, |m|);
    RenderFresh(s);
    u := v.(stateDate := DateAlphaWsMore, fullMonth := ToLower(m), dayi := |m| + 1);
    DateGoes(s, pref, v, |m|, s, |m|, u, s);
  }

  lemma MonthMoreDay(s: string, pref: bool, m: string, d: string, q: string, y: string, r: string) returns (w: Parser)
    requires s == Three(m, " ", d, q, y, r) && FullName(m) && OneOrTwo(d) && Digits(y) && y != "" && |d| + |q| + |y| + |r| >= 9
    requires q == " " || q == ", "
    ensures DateStage(s, pref, w, 1 + |m| + |d| + |q|, Three(m, " ", DayLaid(d), q, y, r))
    ensures w.stateDate.DateAlphaWsMonthMore? && w.stateTime.TimeIgnore? && w.fullMonth == ToLower(m)
    ensures w.skip == 0 && w.t.None? && w.offseti == 0 && !w.ambiguousMD && Untimed(w) && w.moi == 0 && w.yearlen == 0
    ensures w.daylen == |d| && w.yeari == 1 + |m| + |d| + |q|
  {
    hide RunDate, DateStage, Dated, DateInv, DateEndInv, Three, Render, Write, Roles, DateFlowInv;
    hide IsMonthFull, ToLower;
    Fields(m, " ", d, q, y, r, true, false, false);
    var i := 1 + |m| + |d|;
    assert s[i] == q[0] && (|q| == 2 ==> s[i + 1] == q[1]);
    RenderFresh(s);
    var u := MonthMoreBegins(s, pref, m, d, q, y, r);
    SecondReads(u.layout, s, m, " ", d, q, y, r, DayLaid(d));
    w := u.(stateDate := DateAlphaWsMonthMore, daylen := |d|, yeari := i + |q|, layout := Write(u.layout, |m| + 1, DayLaid(d)));
    if |q| == 1 {
      DateGoes(s, pref, u, |m| + 1, s, i, w, Three(m, " ", DayLaid(d), q, y, r));
    } else {
      DateGoesTwo(s, pref, u, |m| + 1, s, i, w, Three(m, " ", DayLaid(d), q, y, r));
    }
  }

  /** The loop goes one byte further behind a comma. */
  lemma MonthMoreYear(s: string, pref: bool, m: string, d: string, q: string, y: string, r: string) returns (p: Parser)
    requires s == Three(m, " ", d, q, y, r) && FullName(m) && OneOrTwo(d) && Digits(y) && y != "" && |d| + |q| + |y| + |r| >= 9
    requires (q == " " || q == ", ") && r != "" && (r[0] == ' ' || r[0] == ',')
    ensures Dated(s, pref, p, 1 + |m| + |d| + |q| + |y| + (if r[0] == ',' then 1 else 0), Three(m, " ", DayLaid(d), q, YearCode(y), r))
    ensures p.stateDate.DateAlphaWsMonthMore? && p.stateTime.TimeStart? && p.fullMonth == ToLower(m) && p.moi == 0
    ensures p.skip == 0 && p.t.None? && p.offseti == 0 && !p.ambiguousMD
  {
    hide RunDate, DateStage, Dated, DateInv, DateEndInv, Three, Render, Write, Roles, DateFlowInv;
    hide IsMonthFull, ToLower;
    Fields(m, " ", d, q, y, r, true, false, false);
    var i, before, text := 1 + |m| + |d| + |q|, Three(m, " ", DayLaid(d), q, y, r), Three(m, " ", DayLaid(d), q, YearCode(y), r);
    var w := MonthMoreDay(s, pref, m, d, q, y, r);
    StageLength(s, pref, w, i, before);
    var x := w.(yearlen := |y|, stateTime := TimeStart, layout := Either(w.layout, i, |y|, 2, "06", 4, "2006"));
    YearReads(w.layout, s, m, " ", DayLaid(d), q, y, r);
    YearReads(x.layout, s, m, " ", DayLaid(d), q, YearCode(y), r);
    var k := i + |y| + (if r[0] == ',' then 1 else 0);
    p := x.CoalesceDate(k);
    DateStops(s, pref, w, i, before, i + |y|, x, k, text);
  }

  // ---------------------------------------------------------------- Monday, 02-Jan-06

  predicate DashOrSpace(q: string) { q == "-" || q == " " }

  /** The first two fields of one view are the first of the other. */
  lemma OtherView(w: string, d: string, q: string, m: string, u: string, y: string, r: string)
    ensures Three(w, ", ", d, q, m, u + y + r) == Three(w + ", " + d, q, m, u, y, r)
  {}

  lemma {:induction false} WeekdayRests(s: string, pref: bool, u: Parser, i: nat, text: string, j: nat)
    requires DateStage(s, pref, u, i, text) && i <= j <= |s| && (forall k :: i <= k < j ==> s[k] != ' ' && s[k] != '-')
    requires u.stateDate.DateWeekdayComma? && u.dayi != 0
    ensures DateStage(s, pref, u, j, text)
    decreases j - i
  {
    hide RunDate, DateStage, Dated, DateInv, DateEndInv, Three, Render, Write, Roles, DateFlowInv;
    StageLength(s, pref, u, i, text);
    if i < j {
      DateGoes(s, pref, u, i, text, i, u, text);
      WeekdayRests(s, pref, u, i + 1, text, j);
    }
  }

  lemma WeekdayBegins(s: string, pref: bool, w: string, d: string, q: string, m: string, r: string) returns (x: Parser)
    requires s == Three(w, ", ", d, q, m, r) && Letters(w) && w != "" && |w| != 3 && OneOrTwo(d) && MonthName(m) && DashOrSpace(q)
    ensures DateStage(s, pref, x, |w| + 3, s) && s[|w| + 2 + |d|] == q[0] && |w| + 2 + |d| < |s|
    ensures forall k :: |w| + 2 <= k < |w| + 2 + |d| ==> IsDigit(s[k])
    ensures x == NewParser(|s|).(stateDate := DateWeekdayComma, skip := |w| + 2, dayi := |w| + 2)
  {
    hide RunDate, DateStage, Dated, DateInv, DateEndInv, Three, Render, Write, Roles, DateFlowInv;
    Fields(w, ", ", d, q, m, r, true, false, true);
    var i := |w| + 2;
    assert s[|w|] == ", "[0] && s[i + |d|] == q[0];
    var v := NewParser(|s|).(stateDate := DateAlpha);
    WordBegins(s, pref, |w|);
    RenderFresh(s);
    var u := v.(stateDate := DateWeekdayComma, skip := i);
    DateGoesTwo(s, pref, v, |w|, s, |w|, u, s);
    x := u.(dayi := i);
    DateGoes(s, pref, u, i, s, i, x, s);
  }

  /** A weekday in full: it and the comma are to be skipped, and the day is read. */
  lemma WeekdayDay(s: string, pref: bool, w: string, d: string, q: string, m: string, r: string) returns (x: Parser)
    requires s == Three(w, ", ", d, q, m, r) && Letters(w) && w != "" && |w| != 3 && OneOrTwo(d) && MonthName(m) && DashOrSpace(q)
    ensures DateStage(s, pref, x, |w| + |d| + 3, Three(w, ", ", DayLaid(d), q, m, r))
    ensures x.stateDate.DateWeekdayComma? && x.stateTime.TimeIgnore? && x.skip == |w| + 2 && x.fullMonth == "" && x.t.None?
    ensures x.offseti == 0 && !x.ambiguousMD && Untimed(x) && x.yeari == 0 && x.yearlen == 0 && x.molen == 0
    ensures x.dayi == |w| + 2 && x.daylen == |d| && x.moi == |w| + |d| + 3
  {
    hide RunDate, DateStage, Dated, DateInv, DateEndInv, Three, Render, Write, Roles, DateFlowInv;
    var i := |w| + 2;
    var u := WeekdayBegins(s, pref, w, d, q, m, r);
    WeekdayRests(s, pref, u, i + 1, s, i + |d|);
    RenderFresh(s);
    SecondReads(u.layout, s, w, ", ", d, q, m, r, DayLaid(d));
    x := u.(moi := i + |d| + 1, daylen := |d|, layout := Write(u.layout, i, DayLaid(d)));
    DateGoes(s, pref, u, i + |d|, s, i + |d|, x, Three(w, ", ", DayLaid(d), q, m, r));
  }

  lemma WeekdayMonth(s: string, pref: bool, w: string, d: string, q: string, m: string, u: string, y: string, r: string)
    returns (x: Parser)
    requires s == Three(w, ", ", d, q, m, u + y + r) && Letters(w) && w != "" && |w| != 3 && OneOrTwo(d) && MonthName(m)
    requires DashOrSpace(q) && DashOrSpace(u)
    ensures DateStage(s, pref, x, |w| + |d| + 7, Three(w + ", " + DayLaid(d), q, "Jan", u, y, r))
    ensures x.stateDate.DateWeekdayComma? && x.stateTime.TimeIgnore? && x.skip == |w| + 2 && x.fullMonth == "" && x.t.None?
    ensures x.offseti == 0 && !x.ambiguousMD && Untimed(x) && x.yeari == |w| + |d| + 7 && x.yearlen == 0 && x.molen == 3
    ensures x.dayi == |w| + 2 && x.daylen == |d| && x.moi == |w| + |d| + 3
  {
    hide RunDate, DateStage, Dated, DateInv, DateEndInv, Three, Render, Write, Roles, DateFlowInv;
    Fields(w, ", ", d, q, m, u + y + r, true, false, true);
    var i := |w| + |d| + 3;
    assert s[i + 3] == u[0];
    var z := WeekdayDay(s, pref, w, d, q, m, u + y + r);
    StageLength(s, pref, z, i, Three(w, ", ", DayLaid(d), q, m, u + y + r));
    WeekdayRests(s, pref, z, i, Three(w, ", ", DayLaid(d), q, m, u + y + r), i + 3);
    OtherView(w, DayLaid(d), q, m, u, y, r);
    SecondReads(z.layout, s, w + ", " + DayLaid(d), q, m, u, y, r, "Jan");
    x := z.(yeari := i + 4, molen := 3, layout := Write(z.layout, i, "Jan"));
    DateGoes(s, pref, z, i + 3, Three(w, ", ", DayLaid(d), q, m, u + y + r), i + 3, x, Three(w + ", " + DayLaid(d), q, "Jan", u, y, r));
  }

  lemma WeekdayYear(s: string, pref: bool, w: string, d: string, q: string, m: string, u: string, y: string, r: string)
    returns (p: Parser)
    requires s == Three(w, ", ", d, q, m, u + y + r) && Letters(w) && w != "" && |w| != 3 && OneOrTwo(d) && MonthName(m)
    requires DashOrSpace(q) && DashOrSpace(u) && Digits(y) && y != "" && (r == "" || r[0] == ' ')
    ensures Dated(s, pref, p, |w| + |d| + 7 + |y|, Three(w + ", " + DayLaid(d), q, "Jan", u, YearCode(y), r))
    ensures p.stateDate.DateWeekdayComma? && p.stateTime.TimeStart? == (r != "") && p.skip == |w| + 2 && p.fullMonth == ""
    ensures p.t.None? && p.offseti == 0 && !p.ambiguousMD
  {
    hide RunDate, DateStage, Dated, DateInv, DateEndInv, Three, Render, Write, Roles, DateFlowInv;
    var i, a := |w| + |d| + 7, w + ", " + DayLaid(d);
    TailBytes(w, d, q, m, u, y, r);
    var z := WeekdayMonth(s, pref, w, d, q, m, u, y, r);
    StageLength(s, pref, z, i, Three(a, q, "Jan", u, y, r));
    WeekdayRests(s, pref, z, i, Three(a, q, "Jan", u, y, r), i + |y|);
    YearReads(z.layout, s, a, q, "Jan", u, y, r);
    var text := Three(a, q, "Jan", u, YearCode(y), r);
    if r == "" {
      p := z.CoalesceDate(|s|);
      DateRunsOut(s, pref, z, |s|, Three(a, q, "Jan", u, y, r), text);
    } else {
      var x := z.(stateTime := TimeStart);
      p := x.CoalesceDate(i + |y|);
      DateStops(s, pref, z, i + |y|, Three(a, q, "Jan", u, y, r), i + |y|, x, i + |y|, text);
    }
  }

  /** The bytes of the year, which is behind the three fields. */
  lemma TailBytes(w: string, d: string, q: string, m: string, u: string, y: string, r: string)
    requires |m| == 3 && |q| == 1 && |u| == 1 && Digits(y)
    ensures var s, i := Three(w, ", ", d, q, m, u + y + r), |w| + |d| + 7;
            i + |y| + |r| == |s| && s[i + |y|..] == r && (r != "" ==> s[i + |y|] == r[0]) && forall k :: i <= k < i + |y| ==> IsDigit(s[k])
  {
    var s, i := Three(w, ", ", d, q, m, u + y + r), |w| + |d| + 7;
    OtherView(w, d, q, m, u, y, r);
    ThreeParts(w + ", " + d, q, m, u, y, r);
    hide Three;
    DigitBytes(s, i, y);
    if r != "" { assert s[i + |y|] == s[i + |y|..][0]; }
  }

  // ---------------------------------------------------------------- Mon, 02 Jan 2006

  lemma AbbrevBegins(s: string, pref: bool, w: string, d: string, q: string, m: string, r: string) returns (x: Parser)
    requires s == Three(w, ", ", d, q, m, r) && MonthName(w) && OneOrTwo(d) && MonthName(m) && DashOrSpace(q)
    ensures DateStage(s, pref, x, 5, Three("Mon", ", ", d, q, m, r)) && s[5 + |d|] == q[0] && 5 + |d| < |s|
    ensures forall k :: 5 <= k < 5 + |d| ==> IsDigit(s[k])
    ensures x == NewParser(|s|).(stateDate := DateWeekdayAbbrevComma, dayi := 5, layout := x.layout)
  {
    hide RunDate, DateStage, Dated, DateInv, DateEndInv, Three, Render, Write, Roles, DateFlowInv;
    Fields(w, ", ", d, q, m, r, true, false, true);
    assert s[3] == ", "[0] && s[4] == ", "[1] && s[5 + |d|] == q[0];
    var v := NewParser(|s|).(stateDate := DateAlpha);
    WordBegins(s, pref, 3);
    RenderFresh(s);
    var u := v.(stateDate := DateWeekdayAbbrevComma, layout := Write(v.layout, 0, "Mon"));
    FirstReads(v.layout, s, w, ", ", d, q, m, r, "Mon");
    DateGoes(s, pref, v, 3, s, 3, u, Three("Mon", ", ", d, q, m, r));
    x := u.(dayi := 5);
    DateGoes(s, pref, u, 4, Three("Mon", ", ", d, q, m, r), 4, x, Three("Mon", ", ", d, q, m, r));
  }

  lemma AbbrevDay(s: string, pref: bool, w: string, d: string, q: string, m: string, r: string) returns (x: Parser)
    requires s == Three(w, ", ", d, q, m, r) && MonthName(w) && OneOrTwo(d) && MonthName(m) && DashOrSpace(q)
    ensures DateStage(s, pref, x, |d| + 6, Three("Mon", ", ", DayLaid(d), q, m, r))
    ensures x.stateDate.DateWeekdayAbbrevComma? && x.stateTime.TimeIgnore? && Bare(x) && !x.ambiguousMD && Untimed(x)
    ensures x.yeari == 0 && x.yearlen == 0 && x.molen == 0 && x.dayi == 5 && x.daylen == |d| && x.moi == |d| + 6
  {
    hide RunDate, DateStage, Dated, DateInv, DateEndInv, Three, Render, Write, Roles, DateFlowInv;
    var u := AbbrevBegins(s, pref, w, d, q, m, r);
    StageLength(s, pref, u, 5, Three("Mon", ", ", d, q, m, r));
    SecondReads(u.layout, s, "Mon", ", ", d, q, m, r, DayLaid(d));
    x := u.(moi := |d| + 6, daylen := |d|, layout := Write(u.layout, 5, DayLaid(d)));
    DateGoes(s, pref, u, 5, Three("Mon", ", ", d, q, m, r), 5 + |d|, x, Three("Mon", ", ", DayLaid(d), q, m, r));
  }

  lemma AbbrevMonth(s: string, pref: bool, w: string, d: string, q: string, m: string, u: string, y: string, r: string)
    returns (x: Parser)
    requires s == Three(w, ", ", d, q, m, u + y + r) && MonthName(w) && OneOrTwo(d) && MonthName(m) && DashOrSpace(q) && DashOrSpace(u)
    ensures DateStage(s, pref, x, |d| + 10, Three("Mon, " + DayLaid(d), q, "Jan", u, y, r))
    ensures x.stateDate.DateWeekdayAbbrevComma? && x.stateTime.TimeIgnore? && Bare(x) && !x.ambiguousMD && Untimed(x)
    ensures x.yeari == |d| + 10 && x.yearlen == 0 && x.molen == 3 && x.dayi == 5 && x.daylen == |d| && x.moi == |d| + 6
  {
    hide RunDate, DateStage, Dated, DateInv, DateEndInv, Three, Render, Write, Roles, DateFlowInv;
    Fields(w, ", ", d, q, m, u + y + r, true, false, true);
    var i := |d| + 6;
    assert s[i + 3] == u[0];
    var z := AbbrevDay(s, pref, w, d, q, m, u + y + r);
    StageLength(s, pref, z, i, Three("Mon", ", ", DayLaid(d), q, m, u + y + r));
    OtherView("Mon", DayLaid(d), q, m, u, y, r);
    assert "Mon" + ", " == "Mon, ";
    SecondReads(z.layout, s, "Mon, " + DayLaid(d), q, m, u, y, r, "Jan");
    x := z.(yeari := i + 4, molen := 3, layout := Write(z.layout, i, "Jan"));
    DateGoes(s, pref, z, i, Three("Mon", ", ", DayLaid(d), q, m, u + y + r), i + 3, x, Three("Mon, " + DayLaid(d), q, "Jan", u, y, r));
  }

  lemma AbbrevYear(s: string, pref: bool, w: string, d: string, q: string, m: string, u: string, y: string, r: string)
    returns (p: Parser)
    requires s == Three(w, ", ", d, q, m, u + y + r) && MonthName(w) && OneOrTwo(d) && MonthName(m) && DashOrSpace(q) && DashOrSpace(u)
    requires Digits(y) && y != "" && (r == "" || r[0] == ' ')
    ensures Dated(s, pref, p, |d| + 10 + |y|, Three("Mon, " + DayLaid(d), q, "Jan", u, YearCode(y), r))
    ensures p.stateDate.DateWeekdayAbbrevComma? && p.stateTime.TimeStart? == (r != "") && Bare(p) && !p.ambiguousMD
  {
    hide RunDate, DateStage, Dated, DateInv, DateEndInv, Three, Render, Write, Roles, DateFlowInv;
    var i, a := |d| + 10, "Mon, " + DayLaid(d);
    TailBytes(w, d, q, m, u, y, r);
    var z := AbbrevMonth(s, pref, w, d, q, m, u, y, r);
    StageLength(s, pref, z, i, Three(a, q, "Jan", u, y, r));
    YearReads(z.layout, s, a, q, "Jan", u, y, r);
    var text := Three(a, q, "Jan", u, YearCode(y), r);
    if r == "" {
      p := z.CoalesceDate(|s|);
      DateRunsOut(s, pref, z, i, Three(a, q, "Jan", u, y, r), text);
    } else {
      var x := z.(yearlen := |y|, stateTime := TimeStart, layout := Either(z.layout, i, |y|, 2, "06", 4, "2006"));
      YearReads(x.layout, s, a, q, "Jan", u, YearCode(y), r);
      p := x.CoalesceDate(i + |y|);
      DateStops(s, pref, z, i, Three(a, q, "Jan", u, y, r), i + |y|, x, i + |y|, text);
    }
  }
}

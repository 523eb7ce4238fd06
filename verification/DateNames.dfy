// Dates in which the month is a word.
module DateNames {
  import opened DateText
  import opened DateParser
  import opened DateWalk
  import opened DateSpelling
  import opened DateTail
  import opened DateFields
  import opened DateStages
  import opened DateNumbers

  predicate MonthName(m: string) { Letters(m) && |m| == 3 }

  predicate Kind(w: string, letters: bool) { if letters then Letters(w) else Digits(w) }

  predicate KindAt(s: string, i: nat, j: nat, letters: bool) {
    i <= j <= |s| && forall k :: i <= k < j ==> if letters then IsLetter(s[k]) else IsDigit(s[k])
  }

  lemma KindBytes(s: string, i: nat, w: string, letters: bool)
    requires i + |w| <= |s| && s[i..i + |w|] == w && Kind(w, letters)
    ensures KindAt(s, i, i + |w|, letters)
  {
    if letters { LetterBytes(s, i, w); } else { DigitBytes(s, i, w); }
  }

  /** The fields are where Three puts them, and so are the separators. */
  lemma Fields(a: string, p: string, b: string, q: string, c: string, r: string, la: bool, lb: bool, lc: bool)
    requires Kind(a, la) && Kind(b, lb) && Kind(c, lc)
    ensures var s := Three(a, p, b, q, c, r);
            var i := |a| + |p|;
            var j := i + |b| + |q|;
            && KindAt(s, 0, |a|, la) && KindAt(s, i, i + |b|, lb) && KindAt(s, j, j + |c|, lc)
            && (forall k :: |a| <= k < i ==> s[k] == p[k - |a|])
            && (forall k :: i + |b| <= k < j ==> s[k] == q[k - i - |b|])
            && j + |c| + |r| == |s| && s[j + |c|..] == r && (r != "" ==> s[j + |c|] == r[0])
  {
    hide Three, Kind, KindAt;
    var s := Three(a, p, b, q, c, r);
    var i := |a| + |p|;
    var j := i + |b| + |q|;
    ThreeParts(a, p, b, q, c, r);
    KindBytes(s, 0, a, la);
    KindBytes(s, i, b, lb);
    KindBytes(s, j, c, lc);
    forall k | |a| <= k < i ensures s[k] == p[k - |a|] { assert s[k] == s[|a|..i][k - |a|]; }
    forall k | i + |b| <= k < j ensures s[k] == q[k - i - |b|] { assert s[k] == s[i + |b|..j][k - i - |b|]; }
    if r != "" { assert s[j + |c|] == s[j + |c|..][0]; }
  }

  // ---------------------------------------------------------------- dd/Mon/yyyy

  lemma SlashNameParts(s: string, pref: bool, d: string, m: string, y: string, r: string) returns (w: Parser)
    requires s == Three(d, "/", m, "/", y, r) && Digits(d) && |d| == 2 && MonthName(m) && Digits(y) && y != ""
    ensures DateStage(s, pref, w, 7, Three("02", "/", "Jan", "/", y, r))
    ensures w.stateDate.DateDigitSlashAlpha? && w.stateTime.TimeIgnore? && Bare(w) && !w.ambiguousMD && Untimed(w)
    ensures w.yeari == 7 && w.yearlen == 0 && w.dayi == 0 && w.moi == 3 && w.molen == 0
  {
    hide RunDate, DateStage, Dated, DateInv, DateEndInv, Three, Render, Write, Roles, DateFlowInv;
    Fields(d, "/", m, "/", y, r, false, true, false);
    var v := NewParser(|s|).(stateDate := DateDigit);
    NumberBegins(s, pref, 2);
    var u := v.(stateDate := DateDigitSlashAlpha, moi := 3, daylen := 2, layout := Write(v.layout, 0, "02"));
    RenderFresh(s);
    FirstReads(v.layout, s, d, "/", m, "/", y, r, "02");
    DateGoes(s, pref, v, 2, s, 2, u, Three("02", "/", m, "/", y, r));
    w := u.(yeari := 7, layout := Write(u.layout, 3, "Jan"));
    SecondReads(u.layout, s, "02", "/", m, "/", y, r, "Jan");
    DateGoes(s, pref, u, 3, Three("02", "/", m, "/", y, r), 6, w, Three("02", "/", "Jan", "/", y, r));
  }

  lemma SlashNameYear(s: string, pref: bool, d: string, m: string, y: string, r: string) returns (p: Parser)
    requires s == Three(d, "/", m, "/", y, r) && Digits(d) && |d| == 2 && MonthName(m) && Digits(y) && y != ""
    requires r == "" || r[0] == ' ' || r[0] == ':'
    ensures Dated(s, pref, p, 7 + |y|, Three("02", "/", "Jan", "/", YearCode(y), r))
    ensures p.stateDate.DateDigitSlashAlpha? && p.stateTime.TimeStart? == (r != "") && Bare(p) && !p.ambiguousMD
  {
    hide RunDate, DateStage, Dated, DateInv, DateEndInv, Three, Render, Write, Roles, DateFlowInv;
    Fields(d, "/", m, "/", y, r, false, true, false);
    var w := SlashNameParts(s, pref, d, m, y, r);
    var before, text := Three("02", "/", "Jan", "/", y, r), Three("02", "/", "Jan", "/", YearCode(y), r);
    StageLength(s, pref, w, 7, before);
    YearReads(w.layout, s, "02", "/", "Jan", "/", y, r);
    if r == "" {
      p := w.CoalesceDate(|s|);
      DateRunsOut(s, pref, w, 7, before, text);
    } else {
      var x := w.(yearlen := |y|, stateTime := TimeStart, layout := Either(w.layout, 7, |y|, 2, "06", 4, "2006"));
      YearReads(x.layout, s, "02", "/", "Jan", "/", YearCode(y), r);
      p := x.CoalesceDate(7 + |y|);
      DateStops(s, pref, w, 7, before, 7 + |y|, x, 7 + |y|, text);
    }
  }

  /** With a day of one digit, two are written over the day and the slash behind it. */
  lemma ShortDaySlash(s: string, pref: bool, d: string, m: string, y: string) returns (p: Parser)
    requires s == Three(d + "/", "", m, "/", y, "") && Digits(d) && |d| == 1 && MonthName(m) && Digits(y) && y != ""
    ensures Dated(s, pref, p, |s|, Three("02", "", "Jan", "/", YearCode(y), ""))
    ensures p.stateDate.DateDigitSlashAlpha? && p.stateTime.TimeIgnore? && Bare(p) && !p.ambiguousMD
  {
    hide RunDate, DateStage, Dated, DateInv, DateEndInv, Three, Render, Write, Roles, DateFlowInv;
    ShortDayFields(d, m, y);
    var v := NewParser(|s|).(stateDate := DateDigit);
    NumberBegins(s, pref, 1);
    RenderFresh(s);
    var u := v.(stateDate := DateDigitSlashAlpha, moi := 2, daylen := 2, layout := Write(v.layout, 0, "02"));
    FirstReads(v.layout, s, d + "/", "", m, "/", y, "", "02");
    DateGoes(s, pref, v, 1, s, 1, u, Three("02", "", m, "/", y, ""));
    var w := u.(yeari := 6, layout := Write(u.layout, 2, "Jan"));
    SecondReads(u.layout, s, "02", "", m, "/", y, "", "Jan");
    DateGoes(s, pref, u, 2, Three("02", "", m, "/", y, ""), 5, w, Three("02", "", "Jan", "/", y, ""));
    YearReads(w.layout, s, "02", "", "Jan", "/", y, "");
    p := w.CoalesceDate(|s|);
    DateRunsOut(s, pref, w, 6, Three("02", "", "Jan", "/", y, ""), Three("02", "", "Jan", "/", YearCode(y), ""));
  }

  lemma ShortDayFields(d: string, m: string, y: string)
    requires Digits(d) && |d| == 1 && MonthName(m) && Digits(y)
    ensures var s := Three(d + "/", "", m, "/", y, "");
            && |s| == 6 + |y| && IsDigit(s[0]) && s[1] == '/' && s[5] == '/'
            && (forall k :: 2 <= k < 5 ==> IsLetter(s[k])) && (forall k :: 6 <= k < |s| ==> IsDigit(s[k]))
  {
    var s := Three(d + "/", "", m, "/", y, "");
    ThreeParts(d + "/", "", m, "/", y, "");
    hide Three;
    assert s[0] == s[0..2][0] && s[1] == s[0..2][1] && s[5] == s[5..6][0];
    LetterBytes(s, 2, m);
    DigitBytes(s, 6, y);
  }

  lemma FirstOfTwo(s: string, pref: bool, w: string, m: string, rest: string) returns (u: Parser)
    requires s == Three(w, " ", m, rest, "", "") && MonthName(w) && NoDay(w) && MonthName(m) && rest != ""
    ensures DateStage(s, pref, u, 4, s) && u == NewParser(|s|).(stateDate := DateAlphaWs)
    ensures |s| > 7 && IsLetter(s[4])
  {
    hide RunDate, DateStage, Dated, DateInv, DateEndInv, Three, Render, Write, Roles, DateFlowInv, IsDay, ToLower;
    Fields(w, " ", m, rest, "", "", true, true, true);
    assert s[..3] == w by { ThreeParts(w, " ", m, rest, "", ""); }
    var v := NewParser(|s|).(stateDate := DateAlpha);
    WordBegins(s, pref, 3);
    RenderFresh(s);
    u := v.(stateDate := DateAlphaWs);
    DateGoes(s, pref, v, 3, s, 3, u, s);
  }

  /** Two words: Mon and Jan are written over their first three letters, and nothing else is. */
  lemma TwoWords(s: string, pref: bool, w: string, m: string, rest: string) returns (p: Parser)
    requires s == Three(w, " ", m, rest, "", "") && MonthName(w) && NoDay(w) && MonthName(m) && rest != ""
    ensures Dated(s, pref, p, 5, Three("Mon", " ", "Jan", rest, "", ""))
    ensures p.stateDate.DateAlphaWsAlpha? && p.stateTime.TimeIgnore? && Bare(p) && !p.ambiguousMD
  {
    hide RunDate, DateStage, Dated, DateInv, DateEndInv, Three, Render, Write, Roles, DateFlowInv, NoDay;
    var u := FirstOfTwo(s, pref, w, m, rest);
    RenderFresh(s);
    FirstReads(u.layout, s, w, " ", m, rest, "", "", "Mon");
    SecondReads(Write(u.layout, 0, "Mon"), s, "Mon", " ", m, rest, "", "", "Jan");
    p := u.(stateDate := DateAlphaWsAlpha, layout := Write(Write(u.layout, 0, "Mon"), 4, "Jan"));
    var text := Three("Mon", " ", "Jan", rest, "", "");
    DateGoes(s, pref, u, 4, s, 4, p, text);
    DateStops(s, pref, p, 5, text, 5, p, 5, text);
  }

  predicate NoDay(m: string) { !IsDay(ToLower(m)) }

  // ---------------------------------------------------------------- d-Mon-yyyy and d-Mon-yy

  lemma DashNameParts(s: string, pref: bool, d: string, m: string, y: string, r: string) returns (w: Parser)
    requires s == Three(d, "-", m, "-", y, r) && OneOrTwo(d) && MonthName(m) && Digits(y) && y != ""
    ensures DateStage(s, pref, w, |d| + 5, Three(d, "-", "Jan", "-", y, r))
    ensures w.stateDate.DateDigitDashAlphaDash? && w.stateTime.TimeIgnore? && Bare(w) && !w.ambiguousMD && Untimed(w)
    ensures w.yeari == |d| + 5 && w.yearlen == 0 && w.dayi == 0 && w.moi == |d| + 1 && w.molen == 3 && w.part1Len == |d|
  {
    hide RunDate, DateStage, Dated, DateInv, DateEndInv, Three, Render, Write, Roles, DateFlowInv;
    Fields(d, "-", m, "-", y, r, false, true, false);
    var v := NewParser(|s|).(stateDate := DateDigit);
    NumberBegins(s, pref, |d|);
    RenderFresh(s);
    var u := v.(stateDate := DateDigitDash, part1Len := |d|);
    DateGoes(s, pref, v, |d|, s, |d|, u, s);
    var x := u.(stateDate := DateDigitDashAlpha, moi := |d| + 1);
    DateGoes(s, pref, u, |d| + 1, s, |d| + 1, x, s);
    w := x.(stateDate := DateDigitDashAlphaDash, molen := 3, yeari := |d| + 5, layout := Write(x.layout, |d| + 1, "Jan"));
    SecondReads(x.layout, s, d, "-", m, "-", y, r, "Jan");
    DateGoes(s, pref, x, |d| + 2, s, |d| + 4, w, Three(d, "-", "Jan", "-", y, r));
  }

  /** Before a clock. */
  lemma DashNameYear(s: string, pref: bool, d: string, m: string, y: string, r: string) returns (p: Parser)
    requires s == Three(d, "-", m, "-", y, r) && OneOrTwo(d) && MonthName(m) && Digits(y) && (|y| == 2 || |y| == 4)
    requires r != "" && r[0] == ' '
    ensures Dated(s, pref, p, |d| + 5 + |y|, Three(DayLaid(d), "-", "Jan", "-", YearCode(y), r))
    ensures p.stateDate.DateDigitDashAlphaDash? && p.stateTime.TimeStart? && Bare(p) && p.ambiguousMD == (|y| == 2)
    ensures p.moi + p.molen == |d| + 4
  {
    hide RunDate, DateStage, Dated, DateInv, DateEndInv, Three, Render, Write, Roles, DateFlowInv;
    Fields(d, "-", m, "-", y, r, false, true, false);
    var w := DashNameParts(s, pref, d, m, y, r);
    var i, before, text := |d| + 5, Three(d, "-", "Jan", "-", y, r), Three(DayLaid(d), "-", "Jan", "-", YearCode(y), r);
    StageLength(s, pref, w, i, before);
    var x := DashYear(w.(stateTime := TimeStart), |y|);
    DashYearReads(w.layout, s, d, y, r);
    assert x == w.(stateTime := TimeStart, ambiguousMD := |y| == 2, yearlen := |y|, daylen := |d|, layout := x.layout);
    YearReads(x.layout, s, DayLaid(d), "-", "Jan", "-", YearCode(y), r);
    p := x.CoalesceDate(i + |y|);
    DateStops(s, pref, w, i, before, i + |y|, x, i + |y|, text);
  }

  lemma DashYearReads(l: seq<Cell>, s: string, d: string, y: string, r: string)
    requires OneOrTwo(d) && (|y| == 2 || |y| == 4) && Render(l, s) == Three(d, "-", "Jan", "-", y, r)
    ensures Render(Either(Write(l, |d| + 5, YearCode(y)), 0, |d|, 2, "02", 1, "2"), s)
            == Three(DayLaid(d), "-", "Jan", "-", YearCode(y), r)
  {
    hide Render, Write, Three;
    ThirdReads(l, s, d, "-", "Jan", "-", y, r, YearCode(y));
    FirstReads(Write(l, |d| + 5, YearCode(y)), s, d, "-", "Jan", "-", YearCode(y), r, DayLaid(d));
  }

  /** Alone: the year is laid out twice, the day by the last switch. */
  lemma DashNameAlone(s: string, pref: bool, d: string, m: string, y: string) returns (p: Parser)
    requires s == Three(d, "-", m, "-", y, "") && OneOrTwo(d) && MonthName(m) && Digits(y) && (|y| == 2 || |y| == 4)
    ensures Scan(s, pref).Done? && Scan(s, pref).res.p == Some(p)
    ensures Lays(Scan(s, pref), p, s, |s|, Three(DayLaid(d), "-", "Jan", "-", YearCode(y), ""), false)
    ensures p.skip == 0 && p.fullMonth == "" && p.t.None? && p.ambiguousMD == (|y| == 2)
  {
    hide RunDate, DateStage, Dated, DateInv, DateEndInv, Three, Render, Write, Roles, DateFlowInv, Scan;
    Fields(d, "-", m, "-", y, "", false, true, false);
    var w := DashNameParts(s, pref, d, m, y, "");
    var i, before, half := |d| + 5, Three(d, "-", "Jan", "-", y, ""), Three(d, "-", "Jan", "-", YearCode(y), "");
    StageLength(s, pref, w, i, before);
    YearReads(w.layout, s, d, "-", "Jan", "-", y, "");
    var q := w.CoalesceDate(|s|);
    DateRunsOut(s, pref, w, i, before, half);
    DatedLength(s, pref, q, |s|, half);
    DashYearReads(q.layout, s, d, YearCode(y), "");
    p := DashYear(q, |y|);
    DateAlone(s, pref, q, half);
  }

  // ---------------------------------------------------------------- yyyy-Mon-d

  lemma DashNameDay(s: string, pref: bool, y: string, m: string, d: string) returns (w: Parser)
    requires s == Three(y, "-", m, "-", d, "") && Digits(y) && |y| == 4 && MonthName(m) && OneOrTwo(d)
    ensures DateStage(s, pref, w, |s|, Three("2006", "-", "Jan", "-", d, ""))
    ensures w.stateDate.DateYearDashAlphaDash? && w.stateTime.TimeIgnore? && Bare(w) && !w.ambiguousMD && Untimed(w)
    ensures w.yeari == 0 && w.molen == 3 && w.dayi == 9 && w.daylen == 0 && |s| == 9 + |d|
  {
    hide RunDate, DateStage, Dated, DateInv, DateEndInv, Three, Render, Write, Roles, DateFlowInv;
    Fields(y, "-", m, "-", d, "", false, true, false);
    var v := NewParser(|s|).(stateDate := DateDigit);
    NumberBegins(s, pref, 4);
    RenderFresh(s);
    var u := v.(stateDate := DateYearDash, yearlen := 4, moi := 5, part1Len := 4, layout := Write(v.layout, 0, "2006"));
    FirstReads(v.layout, s, y, "-", m, "-", d, "", "2006");
    var text := Three("2006", "-", m, "-", d, "");
    DateGoes(s, pref, v, 4, s, 4, u, text);
    var x := u.(stateDate := DateYearDashAlphaDash);
    DateGoes(s, pref, u, 5, text, 5, x, text);
    w := x.(molen := 3, dayi := 9, layout := Write(x.layout, 5, "Jan"));
    SecondReads(x.layout, s, "2006", "-", m, "-", d, "", "Jan");
    DateGoes(s, pref, x, 6, text, 8, w, Three("2006", "-", "Jan", "-", d, ""));
    DateQuiet(s, pref, w, 9, Three("2006", "-", "Jan", "-", d, ""), |s|);
  }

  lemma DateQuiet(s: string, pref: bool, w: Parser, i: nat, text: string, j: nat)
    requires DateStage(s, pref, w, i, text) && QuietAll(w.stateDate, s, i, j)
    ensures DateStage(s, pref, w, j, text)
  {
    hide RunDate, DateInv, QuietAll, Render;
    DatePasses(w, pref, s, i, j);
  }

  /** Alone: the day is laid out twice. */
  lemma DashNameDayAlone(s: string, pref: bool, y: string, m: string, d: string) returns (p: Parser)
    requires s == Three(y, "-", m, "-", d, "") && Digits(y) && |y| == 4 && MonthName(m) && OneOrTwo(d)
    ensures Lays(Scan(s, pref), p, s, |s|, Three("2006", "-", "Jan", "-", DayLaid(d), ""), false)
    ensures p.skip == 0 && p.fullMonth == "" && p.t.None? && !p.ambiguousMD
  {
    hide RunDate, DateStage, Dated, DateInv, DateEndInv, Three, Render, Write, Roles, DateFlowInv;
    hide Scan, Lays;
    var before, text := Three("2006", "-", "Jan", "-", d, ""), Three("2006", "-", "Jan", "-", DayLaid(d), "");
    var w := DashNameDay(s, pref, y, m, d);
    StageLength(s, pref, w, |s|, before);
    p := w.CoalesceDate(|s|);
    ThirdReads(w.layout, s, "2006", "-", "Jan", "-", d, "", DayLaid(d));
    DateRunsOut(s, pref, w, |s|, before, text);
    DatedLength(s, pref, p, |s|, text);
    ThirdReads(p.layout, s, "2006", "-", "Jan", "-", DayLaid(d), "", DayLaid(d));
    FinishedAlone(s, pref, p, text, p.Set(9, DayLaid(d)), text);
  }

  // ---------------------------------------------------------------- d Mon yyyy

  lemma DayNameParts(s: string, pref: bool, d: string, m: string, y: string, r: string) returns (w: Parser)
    requires s == Three(d, " ", m, " ", y, r) && OneOrTwo(d) && MonthName(m) && Digits(y) && y != ""
    ensures DateStage(s, pref, w, |d| + 5, Three(DayLaid(d), " ", "Jan", " ", y, r))
    ensures w.stateDate.DateDigitWsMoYear? && w.stateTime.TimeStart? && Bare(w) && !w.ambiguousMD && Untimed(w)
    ensures w.yeari == |d| + 5 && w.yearlen == 0 && w.dayi == 0 && w.moi == |d| + 1 && w.molen == 3
  {
    hide RunDate, DateStage, Dated, DateInv, DateEndInv, Three, Render, Write, Roles, DateFlowInv;
    Fields(d, " ", m, " ", y, r, false, true, false);
    var v := NewParser(|s|).(stateDate := DateDigit);
    NumberBegins(s, pref, |d|);
    RenderFresh(s);
    var u := v.(stateDate := DateDigitWs, daylen := |d|, part1Len := |d|);
    DateGoes(s, pref, v, |d|, s, |d|, u, s);
    w := u.(stateDate := DateDigitWsMoYear, stateTime := TimeStart, yeari := |d| + 5, moi := |d| + 1, molen := 3,
            layout := Write(Write(u.layout, 0, DayLaid(d)), |d| + 1, "Jan"));
    FirstReads(u.layout, s, d, " ", m, " ", y, r, DayLaid(d));
    SecondReads(Write(u.layout, 0, DayLaid(d)), s, DayLaid(d), " ", m, " ", y, r, "Jan");
    DateGoes(s, pref, u, |d| + 1, s, |d| + 4, w, Three(DayLaid(d), " ", "Jan", " ", y, r));
  }

  /** The loop goes one byte further behind a comma. */
  lemma DayNameYear(s: string, pref: bool, d: string, m: string, y: string, r: string) returns (p: Parser)
    requires s == Three(d, " ", m, " ", y, r) && OneOrTwo(d) && MonthName(m) && Digits(y) && y != ""
    requires r == "" || r[0] == ' ' || r[0] == ','
    ensures Dated(s, pref, p, |d| + 5 + |y| + (if r != "" && r[0] == ',' then 1 else 0),
                  Three(DayLaid(d), " ", "Jan", " ", YearCode(y), r))
    ensures p.stateDate.DateDigitWsMoYear? && p.stateTime.TimeStart? && Bare(p) && !p.ambiguousMD
  {
    hide RunDate, DateStage, Dated, DateInv, DateEndInv, Three, Render, Write, Roles, DateFlowInv;
    Fields(d, " ", m, " ", y, r, false, true, false);
    var w := DayNameParts(s, pref, d, m, y, r);
    var i, before, text := |d| + 5, Three(DayLaid(d), " ", "Jan", " ", y, r), Three(DayLaid(d), " ", "Jan", " ", YearCode(y), r);
    StageLength(s, pref, w, i, before);
    YearReads(w.layout, s, DayLaid(d), " ", "Jan", " ", y, r);
    if r == "" {
      p := w.CoalesceDate(|s|);
      DateRunsOut(s, pref, w, i, before, text);
    } else {
      var x := w.(yearlen := |y|, layout := Either(w.layout, i, |y|, 2, "06", 4, "2006"));
      YearReads(x.layout, s, DayLaid(d), " ", "Jan", " ", YearCode(y), r);
      var k := i + |y| + (if r[0] == ',' then 1 else 0);
      p := x.CoalesceDate(k);
      DateStops(s, pref, w, i, before, i + |y|, x, k, text);
    }
  }

  lemma DayMonthParts(s: string, pref: bool, d: string, m: string, y: string) returns (w: Parser)
    requires s == Three(d, " ", m, " ", y, "") && OneOrTwo(d) && Letters(m) && |m| > 3 && Digits(y) && y != ""
    ensures DateStage(s, pref, w, |d| + |m| + 2, Three(DayLaid(d), " ", m, " ", y, ""))
    ensures w.stateDate.DateDigitWsMolong? && w.stateTime.TimeStart? && Bare(w) && !w.ambiguousMD && Untimed(w)
    ensures w.yeari == |d| + |m| + 2 && w.yearlen == 0 && w.dayi == 0 && w.moi == 0 && w.daylen == |d|
  {
    hide RunDate, DateStage, Dated, DateInv, DateEndInv, Three, Render, Write, Roles, DateFlowInv;
    Fields(d, " ", m, " ", y, "", false, true, false);
    var v := NewParser(|s|).(stateDate := DateDigit);
    NumberBegins(s, pref, |d|);
    RenderFresh(s);
    var u := v.(stateDate := DateDigitWs, daylen := |d|, part1Len := |d|);
    DateGoes(s, pref, v, |d|, s, |d|, u, s);
    var i := |d| + |m| + 2;
    w := u.(stateDate := DateDigitWsMolong, stateTime := TimeStart, yeari := i, layout := Write(u.layout, 0, DayLaid(d)));
    FirstReads(u.layout, s, d, " ", m, " ", y, "", DayLaid(d));
    DateGoes(s, pref, u, |d| + 1, s, i - 1, w, Three(DayLaid(d), " ", m, " ", y, ""));
  }

  /** d January yyyy: the last switch puts one of two layouts in place of the buffer. */
  lemma DayMonthAlone(s: string, pref: bool, d: string, m: string, y: string) returns (p: Parser)
    requires s == Three(d, " ", m, " ", y, "") && OneOrTwo(d) && Letters(m) && |m| > 3 && Digits(y) && y != ""
    ensures Scan(s, pref) == Done(Result(Some(p), None), s) && p.dlen == |s| && !p.zulu
    ensures p.layout == Lit(if |d| == 2 then "02 January 2006" else "2 January 2006")
    ensures p.skip == 0 && p.fullMonth == "" && p.t.None? && !p.ambiguousMD
  {
    hide RunDate, DateStage, Dated, DateInv, DateEndInv, Three, Render, Write, Roles, DateFlowInv;
    hide Scan;
    Fields(d, " ", m, " ", y, "", false, true, false);
    var w := DayMonthParts(s, pref, d, m, y);
    var before, text := Three(DayLaid(d), " ", m, " ", y, ""), Three(DayLaid(d), " ", m, " ", YearCode(y), "");
    StageLength(s, pref, w, |d| + |m| + 2, before);
    YearReads(w.layout, s, DayLaid(d), " ", m, " ", y, "");
    var q := w.CoalesceDate(|s|);
    DateRunsOut(s, pref, w, |d| + |m| + 2, before, text);
    DatedLength(s, pref, q, |s|, text);
    DateAlone(s, pref, q, text);
    p := q.(layout := Lit(if |d| == 2 then "02 January 2006" else "2 January 2006"));
  }

  // ---------------------------------------------------------------- Mon d, yyyy and Mon d yyyy

  /** Spaces, or a point and spaces, between the name and the day. */
  predicate Gap(g: string) { |g| > 0 && (g[0] == ' ' || (g[0] == '.' && |g| > 1)) && forall k :: 1 <= k < |g| ==> g[k] == ' ' }

  /** The loop stands behind the name and the gap, at the first digit of the day. */
  lemma NameThenGap(s: string, pref: bool, m: string, g: string, d: string, q: string, y: string, r: string) returns (u: Parser)
    requires s == Three(m, g, d, q, y, r) && MonthName(m) && NoDay(m) && Gap(g) && OneOrTwo(d) && Digits(y)
    ensures DateStage(s, pref, u, 3 + |g|, if g[0] == ' ' then s else Three("Jan", g, d, q, y, r))
    ensures u.stateDate == if g[0] == ' ' then DateAlphaWs else DateAlphaPeriodWsDigit
    ensures u.stateTime.TimeIgnore? && Bare(u) && !u.ambiguousMD && Untimed(u)
    ensures u.yeari == 0 && u.yearlen == 0 && u.daylen == 0 && u.moi == 0
  {
    hide RunDate, DateStage, Dated, DateInv, DateEndInv, Three, Render, Write, Roles, DateFlowInv;
    hide IsDay, ToLower;
    Fields(m, g, d, q, y, r, true, false, false);
    assert s[..3] == m by { ThreeParts(m, g, d, q, y, r); }
    var v := NewParser(|s|).(stateDate := DateAlpha);
    WordBegins(s, pref, 3);
    RenderFresh(s);
    if g[0] == ' ' {
      u := v.(stateDate := DateAlphaWs);
      DateGoes(s, pref, v, 3, s, 3, u, s);
      SkipGap(s, pref, u, 4, s, 3 + |g|);
    } else {
      FirstReads(v.layout, s, m, g, d, q, y, r, "Jan");
      u := v.(stateDate := DateAlphaPeriodWsDigit, molen := 3, layout := Write(v.layout, 0, "Jan"));
      DateGoes(s, pref, v, 3, s, 3, u, Three("Jan", g, d, q, y, r));
      SkipGap(s, pref, u, 4, Three("Jan", g, d, q, y, r), 3 + |g|);
    }
  }

  lemma NameDayParts(s: string, pref: bool, m: string, g: string, d: string, q: string, y: string, r: string) returns (w: Parser)
    requires s == Three(m, g, d, q, y, r) && MonthName(m) && NoDay(m) && Gap(g) && OneOrTwo(d) && Digits(y)
    ensures DateStage(s, pref, w, 4 + |g|, Three("Jan", g, d, q, y, r))
    ensures w.stateDate.DateAlphaWsDigit? && w.stateTime.TimeIgnore? && Bare(w) && !w.ambiguousMD && Untimed(w)
    ensures w.yeari == 0 && w.yearlen == 0 && w.dayi == 3 + |g| && w.daylen == 0 && w.moi == 0
  {
    hide RunDate, DateStage, Dated, DateInv, DateEndInv, Three, Render, Write, Roles, DateFlowInv;
    hide NoDay;
    Fields(m, g, d, q, y, r, true, false, false);
    var u := NameThenGap(s, pref, m, g, d, q, y, r);
    var before, text := if g[0] == ' ' then s else Three("Jan", g, d, q, y, r), Three("Jan", g, d, q, y, r);
    StageLength(s, pref, u, 3 + |g|, before);
    if g[0] == ' ' { FirstReads(u.layout, s, m, g, d, q, y, r, "Jan"); }
    w := u.(stateDate := DateAlphaWsDigit, dayi := 3 + |g|, layout := if g[0] == ' ' then Write(u.layout, 0, "Jan") else u.layout);
    DateGoes(s, pref, u, 3 + |g|, before, 3 + |g|, w, text);
  }

  lemma {:induction false} SkipGap(s: string, pref: bool, u: Parser, i: nat, text: string, j: nat)
    requires DateStage(s, pref, u, i, text) && i <= j < |s| && (forall k :: i <= k < j ==> s[k] == ' ')
    requires u.stateDate.DateAlphaWs? || u.stateDate.DateAlphaPeriodWsDigit?
    ensures DateStage(s, pref, u, j, text)
    decreases j - i
  {
    hide RunDate, DateStage, Dated, DateInv, DateEndInv, Three, Render, Write, Roles, DateFlowInv;
    StageLength(s, pref, u, i, text);
    if i < j {
      DateGoes(s, pref, u, i, text, i, u, text);
      SkipGap(s, pref, u, i + 1, text, j);
    }
  }

  /** Mon d, or Mon d followed by a space, and then the year. */
  lemma NameDayEnds(s: string, pref: bool, m: string, g: string, d: string, q: string, y: string, r: string) returns (w: Parser)
    requires s == Three(m, g, d, q, y, r) && MonthName(m) && NoDay(m) && Gap(g) && OneOrTwo(d) && Digits(y)
    requires |q| > 0 && (q[0] == ' ' || q[0] == ',')
    ensures DateStage(s, pref, w, 4 + |g| + |d|, Three("Jan", g, DayLaid(d), q, y, r))
    ensures w.stateDate == if q[0] == ' ' then DateAlphaWsDigitYearmaybe else DateAlphaWsDigitMore
    ensures w.stateTime == (if q[0] == ' ' then TimeStart else TimeIgnore) && Bare(w) && !w.ambiguousMD && Untimed(w)
    ensures w.yeari == (if q[0] == ' ' then 4 + |g| + |d| else 0) && w.yearlen == 0 && w.moi == 0 && w.daylen == |d|
  {
    hide RunDate, DateStage, Dated, DateInv, DateEndInv, Three, Render, Write, Roles, DateFlowInv;
    hide Gap, NoDay;
    Fields(m, g, d, q, y, r, true, false, false);
    var i := 3 + |g| + |d|;
    assert s[i] == q[0];
    var u := NameDayParts(s, pref, m, g, d, q, y, r);
    StageLength(s, pref, u, 4 + |g|, Three("Jan", g, d, q, y, r));
    SecondReads(u.layout, s, "Jan", g, d, q, y, r, DayLaid(d));
    var x := u.(daylen := |d|, layout := Write(u.layout, 3 + |g|, DayLaid(d)));
    w := if q[0] == ' ' then x.(yeari := i + 1, stateDate := DateAlphaWsDigitYearmaybe, stateTime := TimeStart)
         else x.(stateDate := DateAlphaWsDigitMore);
    DateGoes(s, pref, u, 4 + |g|, Three("Jan", g, d, q, y, r), i, w, Three("Jan", g, DayLaid(d), q, y, r));
  }

  /** Mon d, yyyy; a quote may stand before the year. */
  lemma CommaYear(s: string, pref: bool, m: string, g: string, d: string, q: string, y: string, r: string) returns (w: Parser)
    requires s == Three(m, g, d, q, y, r) && MonthName(m) && NoDay(m) && Gap(g) && OneOrTwo(d) && Digits(y) && y != ""
    requires q == ", " || q == ", '"
    ensures DateStage(s, pref, w, 3 + |g| + |d| + |q|, Three("Jan", g, DayLaid(d), q, y, r))
    ensures w.stateDate.DateAlphaWsDigitMoreWs? && w.stateTime.TimeIgnore? && Bare(w) && !w.ambiguousMD && Untimed(w)
    ensures w.yeari == 3 + |g| + |d| + |q| && w.yearlen == 0 && w.moi == 0 && w.daylen == |d|
  {
    hide RunDate, DateStage, Dated, DateInv, DateEndInv, Three, Render, Write, Roles, DateFlowInv;
    hide Gap, NoDay;
    Fields(m, g, d, q, y, r, true, false, false);
    var i, text := 3 + |g| + |d|, Three("Jan", g, DayLaid(d), q, y, r);
    assert s[i + 1] == q[1] && (|q| == 3 ==> s[i + 2] == q[2]);
    var u := NameDayEnds(s, pref, m, g, d, q, y, r);
    StageLength(s, pref, u, i + 1, text);
    var x := u.(yeari := i + 2, stateDate := DateAlphaWsDigitMoreWs);
    DateGoes(s, pref, u, i + 1, text, i + 1, x, text);
    if |q| == 2 {
      w := x;
    } else {
      w := x.(yeari := i + 3);
      DateGoes(s, pref, x, i + 2, text, i + 2, w, text);
    }
  }

  /** Before a clock. */
  lemma CommaYearEnds(s: string, pref: bool, m: string, g: string, d: string, q: string, y: string, r: string) returns (p: Parser)
    requires s == Three(m, g, d, q, y, r) && MonthName(m) && NoDay(m) && Gap(g) && OneOrTwo(d) && Digits(y) && y != ""
    requires (q == ", " || q == ", '") && r != "" && (r[0] == ' ' || r[0] == ',')
    ensures Dated(s, pref, p, 3 + |g| + |d| + |q| + |y|, Three("Jan", g, DayLaid(d), q, YearCode(y), r))
    ensures p.stateDate.DateAlphaWsDigitMoreWsYear? && p.stateTime.TimeStart? && Bare(p) && !p.ambiguousMD
  {
    hide RunDate, DateStage, Dated, DateInv, DateEndInv, Three, Render, Write, Roles, DateFlowInv;
    hide Gap, NoDay;
    Fields(m, g, d, q, y, r, true, false, false);
    var i := 3 + |g| + |d| + |q|;
    var before, text := Three("Jan", g, DayLaid(d), q, y, r), Three("Jan", g, DayLaid(d), q, YearCode(y), r);
    var w := CommaYear(s, pref, m, g, d, q, y, r);
    StageLength(s, pref, w, i, before);
    var x := w.(stateDate := DateAlphaWsDigitMoreWsYear, yearlen := |y|, stateTime := TimeStart,
                layout := Either(w.layout, i, |y|, 2, "06", 4, "2006"));
    YearReads(w.layout, s, "Jan", g, DayLaid(d), q, y, r);
    YearReads(x.layout, s, "Jan", g, DayLaid(d), q, YearCode(y), r);
    p := x.CoalesceDate(i + |y|);
    DateStops(s, pref, w, i, before, i + |y|, x, i + |y|, text);
  }

  /** Alone: the year is laid out twice, by the last switch too. */
  lemma CommaYearAlone(s: string, pref: bool, m: string, g: string, d: string, q: string, y: string) returns (p: Parser)
    requires s == Three(m, g, d, q, y, "") && MonthName(m) && NoDay(m) && Gap(g) && OneOrTwo(d) && Digits(y) && y != ""
    requires q == ", " || q == ", '"
    ensures Lays(Scan(s, pref), p, s, |s|, Three("Jan", g, DayLaid(d), q, YearCode(y), ""), false)
    ensures p.skip == 0 && p.fullMonth == "" && p.t.None? && !p.ambiguousMD
  {
    hide RunDate, DateStage, Dated, DateInv, DateEndInv, Three, Render, Write, Roles, DateFlowInv;
    hide Gap, NoDay, Scan, Lays;
    Fields(m, g, d, q, y, "", true, false, false);
    var i := 3 + |g| + |d| + |q|;
    var before, text := Three("Jan", g, DayLaid(d), q, y, ""), Three("Jan", g, DayLaid(d), q, YearCode(y), "");
    var w := CommaYear(s, pref, m, g, d, q, y, "");
    StageLength(s, pref, w, i, before);
    YearReads(w.layout, s, "Jan", g, DayLaid(d), q, y, "");
    p := w.CoalesceDate(|s|);
    DateRunsOut(s, pref, w, i, before, text);
    DatedLength(s, pref, p, |s|, text);
    YearReads(p.layout, s, "Jan", g, DayLaid(d), q, YearCode(y), "");
    FinishedAlone(s, pref, p, text, p.(yearlen := |y|, layout := Either(p.layout, i, |y|, 2, "06", 4, "2006")), text);
  }

  /** Mon d yyyy, alone or with a space behind it. */
  lemma SpaceYear(s: string, pref: bool, m: string, g: string, d: string, y: string, r: string) returns (p: Parser)
    requires s == Three(m, g, d, " ", y, r) && MonthName(m) && NoDay(m) && Gap(g) && OneOrTwo(d) && Digits(y) && y != ""
    requires r == "" || r[0] == ' '
    ensures Dated(s, pref, p, 4 + |g| + |d| + |y|, Three("Jan", g, DayLaid(d), " ", YearCode(y), r))
    ensures p.stateDate.DateAlphaWsDigitYearmaybe? && p.stateTime.TimeStart? && Bare(p) && !p.ambiguousMD
  {
    hide RunDate, DateStage, Dated, DateInv, DateEndInv, Three, Render, Write, Roles, DateFlowInv;
    hide Gap, NoDay;
    Fields(m, g, d, " ", y, r, true, false, false);
    var i := 4 + |g| + |d|;
    var before, text := Three("Jan", g, DayLaid(d), " ", y, r), Three("Jan", g, DayLaid(d), " ", YearCode(y), r);
    var w := NameDayEnds(s, pref, m, g, d, " ", y, r);
    StageLength(s, pref, w, i, before);
    YearReads(w.layout, s, "Jan", g, DayLaid(d), " ", y, r);
    if r == "" {
      p := w.CoalesceDate(|s|);
      DateRunsOut(s, pref, w, i, before, text);
    } else {
      var x := w.(yearlen := |y|, layout := Either(w.layout, i, |y|, 2, "06", 4, "2006"));
      YearReads(x.layout, s, "Jan", g, DayLaid(d), " ", YearCode(y), r);
      p := x.CoalesceDate(i + |y|);
      DateStops(s, pref, w, i, before, i + |y|, x, i + |y|, text);
    }
  }

  /** Mon d hh: what looked like a year is an hour. */
  lemma HourForYear(s: string, pref: bool, m: string, g: string, d: string, h: string, r: string) returns (p: Parser)
    requires s == Three(m, g, d, " ", h, r) && MonthName(m) && NoDay(m) && Gap(g) && OneOrTwo(d) && OneOrTwo(h)
    requires r != "" && r[0] == ':'
    ensures Dated(s, pref, p, 1 + |g| + |d| + |h|, Three("Jan", g, DayLaid(d), " ", h, r))
    ensures p.stateDate.DateAlphaWsDigit? && p.stateTime.TimeStart? && Bare(p) && !p.ambiguousMD && p.yeari == 0
  {
    hide RunDate, DateStage, Dated, DateInv, DateEndInv, Three, Render, Write, Roles, DateFlowInv;
    hide Gap, NoDay;
    Fields(m, g, d, " ", h, r, true, false, false);
    var i := 4 + |g| + |d|;
    var text := Three("Jan", g, DayLaid(d), " ", h, r);
    var w := NameDayEnds(s, pref, m, g, d, " ", h, r);
    StageLength(s, pref, w, i, text);
    var x := w.(stateDate := DateAlphaWsDigit, yeari := 0);
    p := x.CoalesceDate(i + |h| - 3);
    DateStops(s, pref, w, i, text, i + |h|, x, i + |h| - 3, text);
  }
}

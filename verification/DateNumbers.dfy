// Dates that are three numbers.
module DateNumbers {
  import opened DateText
  import opened DateParser
  import opened DateWalk
  import opened DateSpelling
  import opened DateTail
  import opened DateFields
  import opened DateStages

  /** The fields are numbers, and they are where Three puts them. */
  lemma NumberFields(a: string, p: string, b: string, q: string, c: string, r: string)
    requires Digits(a) && Digits(b) && Digits(c) && |p| == 1 && |q| <= 1
    ensures var s := Three(a, p, b, q, c, r);
            var i := |a| + 1;
            var j := i + |b| + |q|;
            && s[|a|] == p[0] && (q != "" ==> s[i + |b|] == q[0]) && j + |c| + |r| == |s| && s[j + |c|..] == r
            && (r != "" ==> s[j + |c|] == r[0])
            && (forall k :: 0 <= k < |a| ==> IsDigit(s[k]))
            && (forall k :: i <= k < i + |b| ==> IsDigit(s[k]))
            && (forall k :: j <= k < j + |c| ==> IsDigit(s[k]))
  {
    hide Three;
    var s, j := Three(a, p, b, q, c, r), |a| + 1 + |b| + |q|;
    ThreeParts(a, p, b, q, c, r);
    DigitBytes(s, 0, a);
    DigitBytes(s, |a| + 1, b);
    DigitBytes(s, j, c);
    assert s[|a|] == s[|a|..|a| + 1][0];
    if q != "" { assert s[|a| + 1 + |b|] == s[|a| + 1 + |b|..j][0]; }
    if r != "" { assert s[j + |c|] == s[j + |c|..][0]; }
  }

  /** Neither an offset nor a full month name, and nothing to skip. */
  predicate Bare(p: Parser) { p.offseti == 0 && p.skip == 0 && p.fullMonth == "" && p.t.None? }

  function MonthLaid(m: string): (r: string)
    requires OneOrTwo(m)
    ensures |r| == |m|
  {
    if |m| == 2 then "01" else "1"
  }

  function DayLaid(d: string): (r: string)
    requires OneOrTwo(d)
    ensures |r| == |d|
  {
    if |d| == 2 then "02" else "2"
  }

  // ---------------------------------------------------------------- yyyy/m/d

  lemma YearSlashMonth(s: string, pref: bool, y: string, m: string, d: string, r: string) returns (w: Parser)
    requires s == Three(y, "/", m, "/", d, r) && Digits(y) && |y| == 4 && OneOrTwo(m) && OneOrTwo(d)
    ensures DateStage(s, pref, w, 6 + |m|, Three("2006", "/", MonthLaid(m), "/", d, r))
    ensures w.stateDate.DateDigitYearSlash? && w.stateTime.TimeIgnore? && Bare(w) && !w.ambiguousMD
    ensures w.yeari == 0 && w.moi == 5 && w.molen == |m| && w.dayi == 6 + |m| && w.daylen == 0 && Untimed(w)
  {
    hide RunDate, DateStage, Dated, DateInv, DateEndInv, Three, Render, Write, Roles, DateFlowInv;
    NumberFields(y, "/", m, "/", d, r);
    var v := NewParser(|s|).(stateDate := DateDigit);
    NumberBegins(s, pref, 4);
    var u := v.(stateDate := DateDigitYearSlash, yearlen := 4, moi := 5, part1Len := 4, layout := Write(v.layout, 0, "2006"));
    RenderFresh(s);
    FirstReads(v.layout, s, y, "/", m, "/", d, r, "2006");
    DateGoes(s, pref, v, 4, s, 4, u, Three("2006", "/", m, "/", d, r));
    w := u.(molen := |m|, dayi := 6 + |m|, layout := Write(u.layout, 5, MonthLaid(m)));
    SecondReads(u.layout, s, "2006", "/", m, "/", d, r, MonthLaid(m));
    DateGoes(s, pref, u, 5, Three("2006", "/", m, "/", d, r), 5 + |m|, w, Three("2006", "/", MonthLaid(m), "/", d, r));
  }

  lemma YearSlashDay(s: string, pref: bool, y: string, m: string, d: string, r: string) returns (p: Parser)
    requires s == Three(y, "/", m, "/", d, r) && Digits(y) && |y| == 4 && OneOrTwo(m) && OneOrTwo(d)
    requires r == "" || r[0] == ' ' || r[0] == ':'
    ensures Dated(s, pref, p, 6 + |m| + |d|, Three("2006", "/", MonthLaid(m), "/", DayLaid(d), r))
    ensures p.stateDate.DateDigitYearSlash? && p.stateTime.TimeStart? == (r != "") && Bare(p) && !p.ambiguousMD
  {
    hide RunDate, DateStage, Dated, DateInv, DateEndInv, Three, Render, Write, Roles, DateFlowInv;
    var w := YearSlashMonth(s, pref, y, m, d, r);
    NumberFields(y, "/", m, "/", d, r);
    StageLength(s, pref, w, 6 + |m|, Three("2006", "/", MonthLaid(m), "/", d, r));
    ThirdReads(w.layout, s, "2006", "/", MonthLaid(m), "/", d, r, DayLaid(d));
    var text := Three("2006", "/", MonthLaid(m), "/", DayLaid(d), r);
    if r == "" {
      p := w.CoalesceDate(|s|);
      DateRunsOut(s, pref, w, 6 + |m|, Three("2006", "/", MonthLaid(m), "/", d, r), text);
    } else {
      p := w.(daylen := |d|, stateTime := TimeStart, layout := Write(w.layout, 6 + |m|, DayLaid(d)));
      DateStops(s, pref, w, 6 + |m|, Three("2006", "/", MonthLaid(m), "/", d, r), 6 + |m| + |d|, p, 6 + |m| + |d|, text);
    }
  }

  lemma StageLength(s: string, pref: bool, w: Parser, i: nat, text: string)
    requires DateStage(s, pref, w, i, text)
    ensures |w.layout| == |s| && Render(w.layout, s) == text && Untimed(w)
  {}

  // ---------------------------------------------------------------- yyyy-m-d

  lemma YearDashMonth(s: string, pref: bool, y: string, m: string, d: string, r: string) returns (w: Parser)
    requires s == Three(y, "-", m, "-", d, r) && Digits(y) && |y| == 4 && OneOrTwo(m) && OneOrTwo(d)
    ensures DateStage(s, pref, w, 6 + |m|, Three("2006", "-", MonthLaid(m), "-", d, r))
    ensures w.stateDate.DateYearDashDash? && w.stateTime.TimeIgnore? && Bare(w) && !w.ambiguousMD
    ensures w.yeari == 0 && w.moi == 5 && w.molen == |m| && w.dayi == 6 + |m| && w.daylen == 0 && Untimed(w)
  {
    hide RunDate, DateStage, Dated, DateInv, DateEndInv, Three, Render, Write, Roles, DateFlowInv;
    NumberFields(y, "-", m, "-", d, r);
    var v := NewParser(|s|).(stateDate := DateDigit);
    NumberBegins(s, pref, 4);
    var u := v.(stateDate := DateYearDash, yearlen := 4, moi := 5, part1Len := 4, layout := Write(v.layout, 0, "2006"));
    RenderFresh(s);
    FirstReads(v.layout, s, y, "-", m, "-", d, r, "2006");
    DateGoes(s, pref, v, 4, s, 4, u, Three("2006", "-", m, "-", d, r));
    w := u.(stateDate := DateYearDashDash, molen := |m|, dayi := 6 + |m|, layout := Write(u.layout, 5, MonthLaid(m)));
    SecondReads(u.layout, s, "2006", "-", m, "-", d, r, MonthLaid(m));
    DateGoes(s, pref, u, 5, Three("2006", "-", m, "-", d, r), 5 + |m|, w, Three("2006", "-", MonthLaid(m), "-", d, r));
  }

  lemma YearDashDay(s: string, pref: bool, y: string, m: string, d: string, r: string) returns (p: Parser)
    requires s == Three(y, "-", m, "-", d, r) && Digits(y) && |y| == 4 && OneOrTwo(m) && OneOrTwo(d)
    requires r == "" || r[0] == ' ' || r[0] == 'T'
    ensures Dated(s, pref, p, 6 + |m| + |d|, Three("2006", "-", MonthLaid(m), "-", DayLaid(d), r))
    ensures p.stateDate == if r == "" then DateYearDashDash else if r[0] == ' ' then DateYearDashDashWs else DateYearDashDashT
    ensures p.stateTime.TimeStart? == (r != "") && Bare(p) && !p.ambiguousMD
  {
    hide RunDate, DateStage, Dated, DateInv, DateEndInv, Three, Render, Write, Roles, DateFlowInv;
    var w := YearDashMonth(s, pref, y, m, d, r);
    NumberFields(y, "-", m, "-", d, r);
    var before := Three("2006", "-", MonthLaid(m), "-", d, r);
    StageLength(s, pref, w, 6 + |m|, before);
    ThirdReads(w.layout, s, "2006", "-", MonthLaid(m), "-", d, r, DayLaid(d));
    var text := Three("2006", "-", MonthLaid(m), "-", DayLaid(d), r);
    if r == "" {
      p := w.CoalesceDate(|s|);
      DateRunsOut(s, pref, w, 6 + |m|, before, text);
    } else {
      p := w.(daylen := |d|, stateDate := if r[0] == ' ' then DateYearDashDashWs else DateYearDashDashT, stateTime := TimeStart,
              layout := Write(w.layout, 6 + |m|, DayLaid(d)));
      DateStops(s, pref, w, 6 + |m|, before, 6 + |m| + |d|, p, 6 + |m| + |d|, text);
    }
  }

  // ---------------------------------------------------------------- yyyy:m:d

  lemma YearColonMonth(s: string, pref: bool, y: string, m: string, d: string, r: string) returns (w: Parser)
    requires s == Three(y, ":", m, ":", d, r) && Digits(y) && |y| == 4 && OneOrTwo(m) && OneOrTwo(d)
    ensures DateStage(s, pref, w, 6 + |m|, Three("2006", ":", MonthLaid(m), ":", d, r))
    ensures w.stateDate.DateDigitColon? && w.stateTime.TimeIgnore? && Bare(w) && !w.ambiguousMD
    ensures w.yeari == 0 && w.yearlen == 4 && w.moi == 5 && w.molen == |m| && w.dayi == 6 + |m| && w.daylen == 0 && Untimed(w)
  {
    hide RunDate, DateStage, Dated, DateInv, DateEndInv, Three, Render, Write, Roles, DateFlowInv;
    NumberFields(y, ":", m, ":", d, r);
    var v := NewParser(|s|).(stateDate := DateDigit);
    NumberBegins(s, pref, 4);
    var u := v.(stateDate := DateDigitColon, yearlen := 4, moi := 5, part1Len := 4, layout := Write(v.layout, 0, "2006"));
    RenderFresh(s);
    FirstReads(v.layout, s, y, ":", m, ":", d, r, "2006");
    DateGoes(s, pref, v, 4, s, 4, u, Three("2006", ":", m, ":", d, r));
    w := u.(molen := |m|, dayi := 6 + |m|, layout := Write(u.layout, 5, MonthLaid(m)));
    SecondReads(u.layout, s, "2006", ":", m, ":", d, r, MonthLaid(m));
    DateGoes(s, pref, u, 5, Three("2006", ":", m, ":", d, r), 5 + |m|, w, Three("2006", ":", MonthLaid(m), ":", d, r));
  }

  lemma YearColonDay(s: string, pref: bool, y: string, m: string, d: string, r: string) returns (p: Parser)
    requires s == Three(y, ":", m, ":", d, r) && Digits(y) && |y| == 4 && OneOrTwo(m) && OneOrTwo(d)
    requires r == "" || r[0] == ' '
    ensures Dated(s, pref, p, 6 + |m| + |d|, Three("2006", ":", MonthLaid(m), ":", DayLaid(d), r))
    ensures p.stateDate.DateDigitColon? && p.stateTime.TimeStart? == (r != "") && Bare(p) && !p.ambiguousMD
  {
    hide RunDate, DateStage, Dated, DateInv, DateEndInv, Three, Render, Write, Roles, DateFlowInv;
    var w := YearColonMonth(s, pref, y, m, d, r);
    NumberFields(y, ":", m, ":", d, r);
    var before := Three("2006", ":", MonthLaid(m), ":", d, r);
    StageLength(s, pref, w, 6 + |m|, before);
    ThirdReads(w.layout, s, "2006", ":", MonthLaid(m), ":", d, r, DayLaid(d));
    var text := Three("2006", ":", MonthLaid(m), ":", DayLaid(d), r);
    if r == "" {
      p := w.CoalesceDate(|s|);
      DateRunsOut(s, pref, w, 6 + |m|, before, text);
    } else {
      p := w.(daylen := |d|, stateTime := TimeStart, layout := Write(w.layout, 6 + |m|, DayLaid(d)));
      DateStops(s, pref, w, 6 + |m|, before, 6 + |m| + |d|, p, 6 + |m| + |d|, text);
    }
  }

  // ---------------------------------------------------------------- a/b/y, a:b:y and a.b.y

  /** What the year at the end is laid out as, if it has two digits or four. */
  function YearCode(y: string): (r: string)
    ensures |r| == |y|
  {
    if |y| == 2 then "06" else if |y| == 4 then "2006" else y
  }

  lemma YearReads(l: seq<Cell>, s: string, a: string, p: string, b: string, q: string, c: string, r: string)
    requires Render(l, s) == Three(a, p, b, q, c, r)
    ensures Render(Either(l, |a| + |p| + |b| + |q|, |c|, 2, "06", 4, "2006"), s) == Three(a, p, b, q, YearCode(c), r)
  {
    hide Render, Write, Three;
    if |c| == 2 { ThirdReads(l, s, a, p, b, q, c, r, "06"); }
    if |c| == 4 { ThirdReads(l, s, a, p, b, q, c, r, "2006"); }
  }

  /** The first part is the month if it is to come first, and the day otherwise. */
  function FirstLaid(pref: bool, a: string): (r: string)
    requires OneOrTwo(a)
    ensures |r| == |a|
  {
    if pref then MonthLaid(a) else DayLaid(a)
  }

  lemma SlashParts(s: string, pref: bool, a: string, b: string, y: string, r: string) returns (w: Parser)
    requires s == Three(a, "/", b, "/", y, r) && OneOrTwo(a) && OneOrTwo(b) && Digits(y) && y != ""
    ensures DateStage(s, pref, w, |a| + |b| + 2, Three(FirstLaid(pref, a), "/", FirstLaid(!pref, b), "/", y, r))
    ensures w.stateDate.DateDigitSlash? && w.stateTime.TimeIgnore? && Bare(w) && w.ambiguousMD
    ensures w.yeari == |a| + |b| + 2 && w.yearlen == 0 && w.molen > 0 && w.daylen > 0 && Untimed(w)
  {
    hide RunDate, DateStage, Dated, DateInv, DateEndInv, Three, Render, Write, Roles, DateFlowInv;
    NumberFields(a, "/", b, "/", y, r);
    var v := NewParser(|s|).(stateDate := DateDigit);
    NumberBegins(s, pref, |a|);
    var u := v.(stateDate := DateDigitSlash, ambiguousMD := true, part1Len := |a|, layout := Write(v.layout, 0, FirstLaid(pref, a)));
    var x := if pref then u.(molen := |a|, dayi := |a| + 1) else u.(daylen := |a|, moi := |a| + 1);
    RenderFresh(s);
    FirstReads(v.layout, s, a, "/", b, "/", y, r, FirstLaid(pref, a));
    DateGoes(s, pref, v, |a|, s, |a|, x, Three(FirstLaid(pref, a), "/", b, "/", y, r));
    var z := x.(yeari := |a| + |b| + 2, layout := Write(x.layout, |a| + 1, FirstLaid(!pref, b)));
    w := if pref then z.(daylen := |b|) else z.(molen := |b|);
    SecondReads(x.layout, s, FirstLaid(pref, a), "/", b, "/", y, r, FirstLaid(!pref, b));
    DateGoes(s, pref, x, |a| + 1, Three(FirstLaid(pref, a), "/", b, "/", y, r), |a| + 1 + |b|, w,
             Three(FirstLaid(pref, a), "/", FirstLaid(!pref, b), "/", y, r));
  }

  lemma SlashYear(s: string, pref: bool, a: string, b: string, y: string, r: string) returns (p: Parser)
    requires s == Three(a, "/", b, "/", y, r) && OneOrTwo(a) && OneOrTwo(b) && Digits(y) && y != ""
    requires r == "" || r[0] == ' '
    ensures Dated(s, pref, p, |a| + |b| + 2 + |y|, Three(FirstLaid(pref, a), "/", FirstLaid(!pref, b), "/", YearCode(y), r))
    ensures p.stateDate.DateDigitSlash? && p.stateTime.TimeStart? == (r != "") && Bare(p) && p.ambiguousMD
  {
    hide RunDate, DateStage, Dated, DateInv, DateEndInv, Three, Render, Write, Roles, DateFlowInv;
    var w := SlashParts(s, pref, a, b, y, r);
    NumberFields(a, "/", b, "/", y, r);
    p := YearLast(s, pref, w, FirstLaid(pref, a), "/", FirstLaid(!pref, b), "/", y, r);
  }

  lemma ColonParts(s: string, a: string, b: string, y: string, r: string) returns (w: Parser)
    requires s == Three(a, ":", b, ":", y, r) && OneOrTwo(a) && OneOrTwo(b) && Digits(y) && y != ""
    ensures DateStage(s, true, w, |a| + |b| + 2, Three(MonthLaid(a), ":", DayLaid(b), ":", y, r))
    ensures w.stateDate.DateDigitColon? && w.stateTime.TimeIgnore? && Bare(w) && w.ambiguousMD
    ensures w.yeari == |a| + |b| + 2 && w.yearlen == 0 && w.molen > 0 && w.daylen > 0 && Untimed(w)
  {
    hide RunDate, DateStage, Dated, DateInv, DateEndInv, Three, Render, Write, Roles, DateFlowInv;
    NumberFields(a, ":", b, ":", y, r);
    var v := NewParser(|s|).(stateDate := DateDigit);
    NumberBegins(s, true, |a|);
    var x := v.(stateDate := DateDigitColon, ambiguousMD := true, part1Len := |a|, molen := |a|, dayi := |a| + 1,
                layout := Write(v.layout, 0, MonthLaid(a)));
    RenderFresh(s);
    FirstReads(v.layout, s, a, ":", b, ":", y, r, MonthLaid(a));
    DateGoes(s, true, v, |a|, s, |a|, x, Three(MonthLaid(a), ":", b, ":", y, r));
    w := x.(daylen := |b|, yeari := |a| + |b| + 2, layout := Write(x.layout, |a| + 1, DayLaid(b)));
    SecondReads(x.layout, s, MonthLaid(a), ":", b, ":", y, r, DayLaid(b));
    DateGoes(s, true, x, |a| + 1, Three(MonthLaid(a), ":", b, ":", y, r), |a| + 1 + |b|, w,
             Three(MonthLaid(a), ":", DayLaid(b), ":", y, r));
  }

  lemma ColonYear(s: string, a: string, b: string, y: string, r: string) returns (p: Parser)
    requires s == Three(a, ":", b, ":", y, r) && OneOrTwo(a) && OneOrTwo(b) && Digits(y) && y != ""
    requires r == "" || r[0] == ' '
    ensures Dated(s, true, p, |a| + |b| + 2 + |y|, Three(MonthLaid(a), ":", DayLaid(b), ":", YearCode(y), r))
    ensures p.stateDate.DateDigitColon? && p.stateTime.TimeStart? == (r != "") && Bare(p) && p.ambiguousMD
  {
    hide RunDate, DateStage, Dated, DateInv, DateEndInv, Three, Render, Write, Roles, DateFlowInv;
    var w := ColonParts(s, a, b, y, r);
    NumberFields(a, ":", b, ":", y, r);
    p := YearLast(s, true, w, MonthLaid(a), ":", DayLaid(b), ":", y, r);
  }

  /** The year is the last part of a date with slashes or colons, and ends with it. */
  lemma YearLast(s: string, pref: bool, w: Parser, a: string, p: string, b: string, q: string, y: string, r: string) returns (u: Parser)
    requires var j := |a| + |p| + |b| + |q|;
             && DateStage(s, pref, w, j, Three(a, p, b, q, y, r)) && j > 0 && w.yeari == j && w.yearlen == 0
             && j + |y| + |r| == |s| && (r != "" ==> s[j + |y|] == ' ') && (forall k :: j <= k < j + |y| ==> IsDigit(s[k]))
    requires y != "" && (r == "" || r[0] == ' ')
    requires w.stateDate.DateDigitSlash? || w.stateDate.DateDigitColon?
    requires w.stateTime.TimeIgnore? && Bare(w) && w.molen > 0 && w.daylen > 0 && Untimed(w)
    ensures Dated(s, pref, u, |a| + |p| + |b| + |q| + |y|, Three(a, p, b, q, YearCode(y), r))
    ensures u.stateDate == w.stateDate && u.stateTime.TimeStart? == (r != "") && Bare(u) && u.ambiguousMD == w.ambiguousMD
  {
    hide RunDate, DateStage, Dated, DateInv, DateEndInv, Three, Render, Write, Roles, DateFlowInv;
    var j, text := |a| + |p| + |b| + |q|, Three(a, p, b, q, YearCode(y), r);
    StageLength(s, pref, w, j, Three(a, p, b, q, y, r));
    YearReads(w.layout, s, a, p, b, q, y, r);
    if r == "" {
      u := w.CoalesceDate(|s|);
      DateRunsOut(s, pref, w, j, Three(a, p, b, q, y, r), text);
    } else {
      var x := w.(yearlen := |y|, stateTime := TimeStart, layout := Either(w.layout, j, |y|, 2, "06", 4, "2006"));
      YearReads(x.layout, s, a, p, b, q, YearCode(y), r);
      assert YearCode(YearCode(y)) == YearCode(y);
      u := x.CoalesceDate(j + |y|);
      DateStops(s, pref, w, j, Three(a, p, b, q, y, r), j + |y|, x, j + |y|, text);
    }
  }

  lemma DotParts(s: string, pref: bool, a: string, b: string, y: string) returns (p: Parser)
    requires s == Three(a, ".", b, ".", y, "") && OneOrTwo(a) && OneOrTwo(b) && Digits(y) && y != ""
    ensures Dated(s, pref, p, |s|, Three(MonthLaid(a), ".", DayLaid(b), ".", YearCode(y), ""))
    ensures p.stateDate.DateDigitDotDot? && Bare(p) && p.ambiguousMD
  {
    hide RunDate, DateStage, Dated, DateInv, DateEndInv, Three, Render, Write, Roles, DateFlowInv;
    NumberFields(a, ".", b, ".", y, "");
    var v := NewParser(|s|).(stateDate := DateDigit);
    NumberBegins(s, pref, |a|);
    var x := v.(stateDate := DateDigitDot, ambiguousMD := true, part1Len := |a|, molen := |a|, dayi := |a| + 1,
                layout := Write(v.layout, 0, MonthLaid(a)));
    RenderFresh(s);
    FirstReads(v.layout, s, a, ".", b, ".", y, "", MonthLaid(a));
    DateGoes(s, pref, v, |a|, s, |a|, x, Three(MonthLaid(a), ".", b, ".", y, ""));
    var w := x.(stateDate := DateDigitDotDot, daylen := |b|, yeari := |a| + |b| + 2, layout := Write(x.layout, |a| + 1, DayLaid(b)));
    SecondReads(x.layout, s, MonthLaid(a), ".", b, ".", y, "", DayLaid(b));
    var before := Three(MonthLaid(a), ".", DayLaid(b), ".", y, "");
    DateGoes(s, pref, x, |a| + 1, Three(MonthLaid(a), ".", b, ".", y, ""), |a| + 1 + |b|, w, before);
    p := w.CoalesceDate(|s|);
    YearReads(w.layout, s, MonthLaid(a), ".", DayLaid(b), ".", y, "");
    DateRunsOut(s, pref, w, |a| + |b| + 2, before, Three(MonthLaid(a), ".", DayLaid(b), ".", YearCode(y), ""));
  }

  // ---------------------------------------------------------------- yyyy.m.d, yyyy.m and yyyy-m

  lemma YearDot(s: string, pref: bool, y: string, m: string, q: string, d: string) returns (w: Parser)
    requires s == Three(y, ".", m, q, d, "") && Digits(y) && |y| == 4 && OneOrTwo(m) && Digits(d) && (q == "." || q == "")
    ensures DateStage(s, pref, w, 5, Three("2006", ".", m, q, d, ""))
    ensures w.stateDate.DateDigitDot? && w.stateTime.TimeIgnore? && Bare(w) && !w.ambiguousMD && Untimed(w)
    ensures w.yeari == 0 && w.moi == 5 && w.molen == 0 && w.dayi == 0 && w.daylen == 0
  {
    hide RunDate, DateStage, Dated, DateInv, DateEndInv, Three, Render, Write, Roles, DateFlowInv;
    NumberFields(y, ".", m, q, d, "");
    var v := NewParser(|s|).(stateDate := DateDigit);
    NumberBegins(s, pref, 4);
    w := v.(stateDate := DateDigitDot, yearlen := 4, moi := 5, part1Len := 4, layout := Write(v.layout, 0, "2006"));
    RenderFresh(s);
    FirstReads(v.layout, s, y, ".", m, q, d, "", "2006");
    DateGoes(s, pref, v, 4, s, 4, w, Three("2006", ".", m, q, d, ""));
  }

  lemma YearDots(s: string, pref: bool, y: string, m: string, d: string) returns (p: Parser)
    requires s == Three(y, ".", m, ".", d, "") && Digits(y) && |y| == 4 && OneOrTwo(m) && OneOrTwo(d)
    ensures Dated(s, pref, p, |s|, Three("2006", ".", MonthLaid(m), ".", DayLaid(d), ""))
    ensures p.stateDate.DateDigitDotDot? && Bare(p) && !p.ambiguousMD
  {
    hide RunDate, DateStage, Dated, DateInv, DateEndInv, Three, Render, Write, Roles, DateFlowInv;
    NumberFields(y, ".", m, ".", d, "");
    var u := YearDot(s, pref, y, m, ".", d);
    StageLength(s, pref, u, 5, Three("2006", ".", m, ".", d, ""));
    var w := u.(stateDate := DateDigitDotDot, molen := |m|, dayi := 6 + |m|, layout := Write(u.layout, 5, MonthLaid(m)));
    SecondReads(u.layout, s, "2006", ".", m, ".", d, "", MonthLaid(m));
    var before := Three("2006", ".", MonthLaid(m), ".", d, "");
    DateGoes(s, pref, u, 5, Three("2006", ".", m, ".", d, ""), 5 + |m|, w, before);
    p := w.CoalesceDate(|s|);
    ThirdReads(w.layout, s, "2006", ".", MonthLaid(m), ".", d, "", DayLaid(d));
    DateRunsOut(s, pref, w, 6 + |m|, before, Three("2006", ".", MonthLaid(m), ".", DayLaid(d), ""));
  }

  /** The month is laid out twice: when the spans are closed, and by the last switch. */
  lemma YearDotMonth(s: string, pref: bool, y: string, m: string) returns (p: Parser)
    requires s == Three(y, ".", m, "", "", "") && Digits(y) && |y| == 4 && OneOrTwo(m)
    ensures Lays(Scan(s, pref), p, s, |s|, Three("2006", ".", MonthLaid(m), "", "", ""), false) && Bare(p) && !p.ambiguousMD
  {
    hide RunDate, DateStage, Dated, DateInv, DateEndInv, Three, Render, Write, Roles, DateFlowInv;
    hide Lays, Scan;
    NumberFields(y, ".", m, "", "", "");
    var w := YearDot(s, pref, y, m, "", "");
    StageLength(s, pref, w, 5, Three("2006", ".", m, "", "", ""));
    p := w.CoalesceDate(|s|);
    var text := Three("2006", ".", MonthLaid(m), "", "", "");
    SecondReads(w.layout, s, "2006", ".", m, "", "", "", MonthLaid(m));
    DateRunsOut(s, pref, w, 5, Three("2006", ".", m, "", "", ""), text);
    SecondReads(p.layout, s, "2006", ".", MonthLaid(m), "", "", "", MonthLaid(m));
    assert p.dlen == |s| by { DatedLength(s, pref, p, |s|, text); }
    FinishedAlone(s, pref, p, text, p.Set(5, MonthLaid(m)), text);
  }

  lemma DatedLength(s: string, pref: bool, p: Parser, k: int, text: string)
    requires Dated(s, pref, p, k, text)
    ensures p.dlen == |s| == |p.layout| && Untimed(p) && Render(p.layout, s) == text
  {}

  lemma YearDashAlone(s: string, pref: bool, y: string, m: string) returns (p: Parser)
    requires s == Three(y, "-", m, "", "", "") && Digits(y) && |y| == 4 && OneOrTwo(m)
    ensures Dated(s, pref, p, |s|, Three("2006", "-", MonthLaid(m), "", "", ""))
    ensures p.stateDate.DateYearDash? && Bare(p) && !p.ambiguousMD
  {
    hide RunDate, DateStage, Dated, DateInv, DateEndInv, Three, Render, Write, Roles, DateFlowInv;
    NumberFields(y, "-", m, "", "", "");
    var v := NewParser(|s|).(stateDate := DateDigit);
    NumberBegins(s, pref, 4);
    var w := v.(stateDate := DateYearDash, yearlen := 4, moi := 5, part1Len := 4, layout := Write(v.layout, 0, "2006"));
    RenderFresh(s);
    FirstReads(v.layout, s, y, "-", m, "", "", "", "2006");
    var before := Three("2006", "-", m, "", "", "");
    DateGoes(s, pref, v, 4, s, 4, w, before);
    p := w.CoalesceDate(|s|);
    SecondReads(w.layout, s, "2006", "-", m, "", "", "", MonthLaid(m));
    DateRunsOut(s, pref, w, 5, before, Three("2006", "-", MonthLaid(m), "", "", ""));
  }

  // ---------------------------------------------------------------- yyyy-m-d with an offset

  lemma YearDashSign(s: string, pref: bool, y: string, m: string, d: string, z: Zone) returns (u: Parser)
    requires z.Valid() && s == Three(y, "-", m, "-", d, z.Text()) && Digits(y) && |y| == 4 && OneOrTwo(m) && OneOrTwo(d)
    ensures DateStage(s, pref, u, 7 + |m| + |d|, Three("2006", "-", MonthLaid(m), "-", DayLaid(d), z.Text()))
    ensures u.stateDate.DateYearDashDashOffset? && u.offseti == 6 + |m| + |d| && u.skip == 0 && u.fullMonth == "" && u.t.None?
    ensures u.stateTime.TimeIgnore? && !u.ambiguousMD && u.yeari == 0 && u.molen > 0 && u.daylen > 0
    ensures ZoneStands(z, s, 6 + |m| + |d|)
  {
    hide RunDate, DateStage, Dated, DateInv, DateEndInv, Three, Render, Write, Roles, DateFlowInv;
    hide Zone.Text;
    var o, r := 6 + |m| + |d|, z.Text();
    var w := YearDashMonth(s, pref, y, m, d, r);
    NumberFields(y, "-", m, "-", d, r);
    ZoneBytes(z, s, o, |s|);
    var before := Three("2006", "-", MonthLaid(m), "-", d, r);
    StageLength(s, pref, w, 6 + |m|, before);
    ThirdReads(w.layout, s, "2006", "-", MonthLaid(m), "-", d, r, DayLaid(d));
    u := w.(offseti := o, daylen := |d|, stateDate := DateYearDashDashOffset, layout := Write(w.layout, 6 + |m|, DayLaid(d)));
    DateGoes(s, pref, w, 6 + |m|, before, o, u, Three("2006", "-", MonthLaid(m), "-", DayLaid(d), r));
  }

  /** The offset is the end of the string. */
  predicate ZoneStands(z: Zone, s: string, o: nat) {
    && z.Valid() && |s| == o + (if z.m == "" then 3 else if z.colon then 6 else 5)
    && (forall k :: o < k < o + 3 ==> IsDigit(s[k]))
    && (z.colon ==> s[o + 3] == ':' && forall k :: o + 4 <= k < |s| ==> IsDigit(s[k]))
    && (!z.colon ==> forall k :: o < k < |s| ==> IsDigit(s[k]))
  }

  /** An offset of two digits is not laid out behind a date. */
  lemma YearDashOffset(s: string, pref: bool, y: string, m: string, d: string, z: Zone) returns (p: Parser)
    requires z.Valid() && s == Three(y, "-", m, "-", d, z.Text()) && Digits(y) && |y| == 4 && OneOrTwo(m) && OneOrTwo(d)
    ensures Lays(Scan(s, pref), p, s, |s|, Three("2006", "-", MonthLaid(m), "-", DayLaid(d), if z.m == "" then z.Text() else z.Laid()), false)
    ensures p.skip == 0 && p.fullMonth == "" && p.t.None? && !p.ambiguousMD
  {
    hide RunDate, DateStage, Dated, DateInv, DateEndInv, Three, Render, Write, Roles, DateFlowInv, Lays, Scan, Zone.Text;
    var o, r := 6 + |m| + |d|, z.Text();
    var u := YearDashSign(s, pref, y, m, d, z);
    var md, dd := MonthLaid(m), DayLaid(d);
    StageLength(s, pref, u, o + 1, Three("2006", "-", md, "-", dd, r));
    if z.colon {
      p := u.Set(o, "-07:00");
      RestReads(u.layout, s, "2006", "-", md, "-", dd, r, "-07:00");
      RestReads(p.layout, s, "2006", "-", md, "-", dd, "-07:00", "-07:00");
      var end := Three("2006", "-", md, "-", dd, "-07:00");
      DateGoes(s, pref, u, o + 1, Three("2006", "-", md, "-", dd, r), o + 3, p, end);
      DateRunsOut(s, pref, p, o + 4, end, end);
      DatedLength(s, pref, p, |s|, end);
      FinishedAlone(s, pref, p, end, p.Set(o, "-07:00"), end);
    } else {
      p := u;
      DateRunsOut(s, pref, p, o + 1, Three("2006", "-", md, "-", dd, r), Three("2006", "-", md, "-", dd, r));
      DatedLength(s, pref, p, |s|, Three("2006", "-", md, "-", dd, r));
      if z.m != "" {
        RestReads(u.layout, s, "2006", "-", md, "-", dd, r, "-0700");
        FinishedAlone(s, pref, p, Three("2006", "-", md, "-", dd, r), p.Set(o, "-0700"), Three("2006", "-", md, "-", dd, "-0700"));
      } else {
        FinishedAlone(s, pref, p, Three("2006", "-", md, "-", dd, r), p, Three("2006", "-", md, "-", dd, r));
      }
    }
  }

  // ---------------------------------------------------------------- what is not laid out, and bare numbers

  /** With the day first a date with colons is left as it is. */
  lemma ColonsUnlaid(s: string, a: string, b: string, y: string, r: string) returns (p: Parser)
    requires s == Three(a, ":", b, ":", y, r) && OneOrTwo(a) && OneOrTwo(b) && Digits(y) && y != "" && (r == "" || r[0] == ' ')
    ensures Dated(s, false, p, |a| + |b| + 2 + |y|, s)
    ensures p.stateDate.DateDigitColon? && p.stateTime.TimeStart? == (r != "") && Bare(p) && p.ambiguousMD
  {
    hide RunDate, DateStage, Dated, DateInv, DateEndInv, Three, Render, Write, Roles, DateFlowInv;
    NumberFields(a, ":", b, ":", y, r);
    var v := NewParser(|s|).(stateDate := DateDigit);
    NumberBegins(s, false, |a|);
    RenderFresh(s);
    var i, k := |a| + 1 + |b|, |a| + |b| + 2 + |y|;
    var x := v.(stateDate := DateDigitColon, ambiguousMD := true, part1Len := |a|);
    DateGoes(s, false, v, |a|, s, |a|, x, s);
    DateGoes(s, false, x, |a| + 1, s, i, x, s);
    if r == "" {
      p := x.CoalesceDate(|s|);
      DateRunsOut(s, false, x, i + 1, s, s);
    } else {
      p := x.(yearlen := k, stateTime := TimeStart);
      DateStops(s, false, x, i + 1, s, k, p, k, s);
    }
  }

  /** yymmdd: the loop steps back to the space. */
  lemma SixDigits(s: string, pref: bool, n: string, r: string) returns (p: Parser)
    requires s == n + r && Digits(n) && |n| == 6 && |r| > 1 && r[0] == ' '
    ensures Dated(s, pref, p, 6, "060102" + r)
    ensures p.stateDate.DateDigitSt? && p.stateTime.TimeStart? && Bare(p) && !p.ambiguousMD && p.yeari == 0
  {
    hide RunDate, DateStage, Dated, DateInv, DateEndInv, Three, Render, Write, Roles, DateFlowInv;
    assert s[0..6] == n && s[6] == r[0];
    DigitBytes(s, 0, n);
    var v := NewParser(|s|).(stateDate := DateDigit);
    NumberBegins(s, pref, 6);
    RenderFresh(s);
    var x := v.(stateDate := DateDigitSt, part1Len := 6);
    DateGoes(s, pref, v, 6, s, 6, x, s);
    p := x.(stateTime := TimeStart, layout := Write(x.layout, 0, "060102"));
    assert "" + n + r == s && "" + "060102" + r == "060102" + r;
    WriteReads(x.layout, "", n, r, s, "060102");
    DateStops(s, pref, x, 7, s, 7, p, 6, "060102" + r);
  }

  /** Four, eight or fourteen digits. */
  lemma DigitsAlone(s: string, pref: bool) returns (p: Parser)
    requires Digits(s) && |s| in {4, 8, 14}
    ensures Lays(Scan(s, pref), p, s, |s|, if |s| == 4 then "2006" else if |s| == 8 then "20060102" else "20060102150405", false)
    ensures p.skip == 0 && p.fullMonth == "" && p.t.None? && !p.ambiguousMD
  {
    hide RunDate, DateStage, Dated, DateInv, DateEndInv, Write, Roles, DateFlowInv, Scan, Lays;
    NumberBegins(s, pref, |s|);
    RenderFresh(s);
    p := NewParser(|s|).(stateDate := DateDigit);
    assert p.CoalesceDate(|s|) == p;
    DateRunsOut(s, pref, p, |s|, s, s);
    DatedLength(s, pref, p, |s|, s);
    var text := if |s| == 4 then "2006" else if |s| == 8 then "20060102" else "20060102150405";
    LitReads(text, s);
    FinishedAlone(s, pref, p, s, p.(layout := Lit(text)), text);
  }

  lemma LitReads(text: string, s: string)
    ensures |Lit(text)| == |text| && Render(Lit(text), s) == text
  {}
}

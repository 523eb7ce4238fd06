// Forms that take a second pass, and those whose layout is not the length of the input.
module DateAgain {
  import opened DateText
  import opened DateParser
  import opened DateWalk
  import opened DateSpelling
  import opened DateClock
  import opened DateTail
  import opened DateFraction
  import opened DateEnding
  import opened DateFields
  import opened DateStages
  import opened DateNumbers
  import opened DateNames
  import opened DateMonths
  import opened DateLayouts

  // ---------------------------------------------------------------- a comma or a colon for the point

  /** A comma behind the clock is read as a point. */
  lemma CommaIsPoint(d: Date, j: string, at: string, c: Clock, rest: string, loc: Loc, o: Options, lib: Lib)
    requires d.Valid() && d.Joins(j) && c.Valid() && (at == "" || (at == "at " && !d.NameDay?)) && !o.retry
    ensures var before := d.Text() + j + at + c.Text();
            ParseTime(before + ("," + rest), loc, o, lib) == ParseTime(before + ("." + rest), loc, o, lib)
  {
    hide Scan, Marked, Before, Buffer, Date.Laid, Date.Valid, Date.Text, Date.Joins, Clock.Text, Clock.Laid, Tailed;
    var before := d.Text() + j + at + c.Text();
    var s, pre := before + ("," + rest), Buffer(d, o.preferMonthFirst) + j + at;
    var p := DateClockScan(d, j, at, c, "," + rest, o.preferMonthFirst);
    var e := |pre| + |c.Text()|;
    assert s[e] == s[e..][0];
    CommaBehind(p, s, c, pre, e);
    assert s[e := '.'] == before + ("." + rest);
  }

  /** A third colon is read as a point too, but what follows it is laid out as zeroes only if
      there is an offset behind it. */
  lemma ThirdColon(d: Date, j: string, at: string, c: Clock, f: string, loc: Loc, o: Options, lib: Lib)
    requires d.Valid() && d.Joins(j) && c.Valid() && (at == "" || (at == "at " && !d.NameDay?)) && (o.retry ==> !d.Ambiguous())
    requires c.s != "" && Digits(f)
    ensures var before := d.Text() + j + at + c.Text();
            && d.Dropped() <= |before|
            && Gives(ParseTime(before + (":" + f), loc, o, lib), d.Laid(o.preferMonthFirst) + j + at + c.Laid() + ("." + f),
                     (before + ("." + f))[d.Dropped()..], false)
  {
    hide Scan, Marked, Before, Buffer, LaysIn, Date.Laid, Date.Valid, Date.Text, Date.Joins, Clock.Text, Clock.Laid, Tailed, Gives, ParseTime;
    var before := d.Text() + j + at + c.Text();
    var s, pre := before + (":" + f), Buffer(d, o.preferMonthFirst) + j + at;
    var p := DateClockScan(d, j, at, c, ":" + f, o.preferMonthFirst);
    var e := |pre| + |c.Text()|;
    assert ":" + f + "" == ":" + f && "." + f + "" == "." + f;
    ThirdColonAlone(p, s, c, pre, e, f);
    var ds := before + ("." + f);
    assert s[e := '.'] == ds;
    FiveWords(Buffer(d, o.preferMonthFirst), j, at, c.Laid(), "." + f);
    FiveWords(d.Laid(o.preferMonthFirst), j, at, c.Laid(), "." + f);
    PassGives(d, s, ds, loc, o, lib, p, |s|, j + at + c.Laid() + ("." + f), false);
    assert d.Dropped() <= |d.Text()| by { BufferShown(d, o.preferMonthFirst, ""); }
    assert |ds| == |s| && ds[d.Dropped()..|s|] == ds[d.Dropped()..];
  }

  lemma ThirdColonWithOffset(d: Date, j: string, at: string, c: Clock, f: string, z: Zone, loc: Loc, o: Options, lib: Lib)
    requires d.Valid() && d.Joins(j) && c.Valid() && (at == "" || (at == "at " && !d.NameDay?)) && (o.retry ==> !d.Ambiguous())
    requires c.s != "" && Digits(f) && FourDigits(z)
    ensures var before := d.Text() + j + at + c.Text();
            && d.Dropped() <= |before|
            && Gives(ParseTime(before + (":" + f + z.Text()), loc, o, lib),
                     d.Laid(o.preferMonthFirst) + j + at + c.Laid() + ("." + Noughts(|f|) + "-0700"),
                     (before + ("." + f + z.Text()))[d.Dropped()..], false)
  {
    hide Scan, Marked, Before, Buffer, LaysIn, Date.Laid, Date.Valid, Date.Text, Date.Joins, Clock.Text, Clock.Laid, Tailed, Gives, ParseTime;
    hide Zone.Text, Noughts;
    var before, t := d.Text() + j + at + c.Text(), "." + Noughts(|f|) + "-0700";
    var s, pre := before + (":" + f + z.Text()), Buffer(d, o.preferMonthFirst) + j + at;
    var p := DateClockScan(d, j, at, c, ":" + f + z.Text(), o.preferMonthFirst);
    var e := |pre| + |c.Text()|;
    ThirdColonOffset(p, s, c, pre, e, f, z);
    var ds := before + ("." + f + z.Text());
    assert s[e := '.'] == ds;
    FiveWords(Buffer(d, o.preferMonthFirst), j, at, c.Laid(), t);
    FiveWords(d.Laid(o.preferMonthFirst), j, at, c.Laid(), t);
    PassGives(d, s, ds, loc, o, lib, p, |s|, j + at + c.Laid() + t, false);
    assert d.Dropped() <= |d.Text()| by { BufferShown(d, o.preferMonthFirst, ""); }
    assert |ds| == |s| && ds[d.Dropped()..|s|] == ds[d.Dropped()..];
  }

  // ---------------------------------------------------------------- strings that are parsed again

  lemma RestartsScan(s: string, pref: bool, w: Parser, i: nat, text: string, j: nat, f: Flow)
    requires DateStage(s, pref, w, i, text) && QuietAll(w.stateDate, s, i, j) && j < |s| && f.Restart?
    requires DateInv(w, s, j) ==> DateTurn(w, pref, s, j) == f
    ensures Scan(s, pref) == Again(f.s, f.keepOptions, f.ds)
  {
    hide DateStep, DateTurn, Roles, Render;
    DatePasses(w, pref, s, i, j);
    DateStepTurns(w, pref, s, j);
  }

  /** A weekday of three letters and a space are dropped, and what is behind them is parsed with
      the options the package starts with. */
  lemma WeekdayDropped(w: string, t: string, loc: Loc, o: Options, lib: Lib)
    requires Letters(w) && |w| == 3 && IsDay(ToLower(w)) && !o.retry
    ensures ParseTime(w + " " + t, loc, o, lib) == ParseTime(t, loc, DEFAULTS, lib)
  {
    hide IsDay, ToLower, IsMonthFull, Scan, DateInv, DateStage, RunDate, Render, Roles, DateFlowInv, Either, Write;
    var s := w + " " + t;
    assert s[0..3] == w && s[..3] == w && s[3] == ' ' && s[4..] == t;
    LetterBytes(s, 0, w);
    WordBegins(s, o.preferMonthFirst, 3);
    var v := NewParser(|s|).(stateDate := DateAlpha);
    RestartsScan(s, o.preferMonthFirst, v, 3, s, 3, Restart(t, false, s));
  }

  /** sept. is read as sep. */
  lemma FourLetterMonth(w: string, t: string, loc: Loc, o: Options, lib: Lib)
    requires Letters(w) && |w| == 4 && !o.retry
    ensures ParseTime(w + ("." + t), loc, o, lib) == ParseTime(w[..3] + ("." + t), loc, o, lib)
  {
    hide IsDay, ToLower, IsMonthFull, Scan, DateInv, DateStage, RunDate, Render, Roles, DateFlowInv, Either, Write;
    var s, u := w + ("." + t), w[..3] + ("." + t);
    assert s[0..4] == w && s[4] == '.' && s[..3] + s[4..] == u;
    LetterBytes(s, 0, w);
    WordBegins(s, o.preferMonthFirst, 4);
    var v := NewParser(|s|).(stateDate := DateAlpha);
    RestartsScan(s, o.preferMonthFirst, v, 4, s, 4, Restart(u, true, u));
  }

  predicate Ordinal(x: string) {
    x in ["st", "ST", "sT", "St", "nd", "ND", "nD", "Nd", "rd", "RD", "rD", "Rd", "th", "TH", "tH", "Th"]
  }

  lemma OrdinalIs(s: string, i: nat, x: string)
    requires Ordinal(x) && i + 2 <= |s| && s[i] == x[0] && s[i + 1] == x[1]
    ensures SuffixAt(s, s[i], i) && IsLetter(s[i]) && s[i] in "sSrRtTnN" && s[i] != ' ' && s[i] != ','
  {}

  /** The suffix of a day is cut out, wherever a day may have one. */
  lemma SuffixScan(s: string, pref: bool, w: Parser, i: nat, text: string, x: string)
    requires DateStage(s, pref, w, i, text) && i + 2 < |s| && Ordinal(x) && s[i] == x[0] && s[i + 1] == x[1]
    requires w.stateDate.DateAlphaWsDigit? || w.stateDate.DateAlphaWsMonth? || w.stateDate.DateAlphaWsMore?
    ensures Scan(s, pref) == Again(s[..i] + s[i + 2..], true, s)
  {
    hide DateStep, DateTurn, RunDate, Roles, Render, Ordinal, Scan, DateInv, DateFlowInv;
    OrdinalIs(s, i, x);
    var g := SuffixTurns(s, pref, w, i, text);
    OneDateStep(w, pref, s, i);
    OneDateStep(g, pref, s, i);
    RestartIsAgain(s, pref);
  }

  lemma SuffixTurns(s: string, pref: bool, w: Parser, i: nat, text: string) returns (g: Parser)
    requires DateStage(s, pref, w, i, text) && i + 2 < |s| && SuffixAt(s, s[i], i)
    requires IsLetter(s[i]) && s[i] in "sSrRtTnN" && s[i] != ' ' && s[i] != ','
    requires w.stateDate.DateAlphaWsDigit? || w.stateDate.DateAlphaWsMonth? || w.stateDate.DateAlphaWsMore?
    ensures DateAt(w, s, i) && DateStep(w, pref, s, i) == Next(g, s, i)
    ensures DateAt(g, s, i) && DateStep(g, pref, s, i) == Restart(s[..i] + s[i + 2..], true, s)
  {
    hide DateStep, Roles, Render, Write, Either, DateInv;
    DateStepTurns(w, pref, s, i);
    g := DateTurn(w, pref, s, i).p;
    assert DateInv(g, s, i) by { SuffixInv(w, pref, s, i, g); }
    DateStepTurns(g, pref, s, i);
  }

  lemma SuffixInv(w: Parser, pref: bool, s: string, i: nat, g: Parser)
    requires DateAt(w, s, i) && DateStep(w, pref, s, i) == Next(g, s, i)
    ensures DateInv(g, s, i)
  {
    hide DateStep, Roles, DateInv;
  }

  lemma OneDateStep(p: Parser, pref: bool, s: string, i: nat)
    requires DateAt(p, s, i)
    ensures var f := DateStep(p, pref, s, i); f.Next? ==> DateInv(f.p, s, f.i) && RunDate(p, pref, s, i) == RunDate(f.p, pref, s, f.i)
    ensures var f := DateStep(p, pref, s, i); !f.Next? ==> RunDate(p, pref, s, i) == f
  {
    hide DateStep, Roles;
  }

  lemma RestartIsAgain(s: string, pref: bool)
    ensures var f := RunDate(NewParser(|s|), pref, s, 0); f.Restart? ==> Scan(s, pref) == Again(f.s, f.keepOptions, f.ds)
  {
    hide RunDate, Roles;
  }

  /** oct 7th, 1970: whatever comes behind the suffix. */
  lemma SuffixDropped(n: string, g: string, d: string, x: string, rest: string, loc: Loc, o: Options, lib: Lib)
    requires MonthName(n) && NoDay(n) && Gap(g) && OneOrTwo(d) && Ordinal(x) && rest != "" && !o.retry
    ensures ParseTime(n + g + d + x + rest, loc, o, lib) == ParseTime(n + g + d + rest, loc, o, lib)
  {
    hide RunDate, DateStage, DateInv, DateEndInv, Three, Render, Write, Roles, DateFlowInv, Scan, ParseTime, Ordinal;
    hide NoDay, Gap;
    var s, i, pref := n + g + d + x + rest, 3 + |g| + |d|, o.preferMonthFirst;
    SuffixParts(n, g, d, x, rest);
    Fields(n, g, d, x + rest, "", "", true, false, false);
    var w := NameDayParts(s, pref, n, g, d, x + rest, "", "");
    DateQuiet(s, pref, w, 4 + |g|, Three("Jan", g, d, x + rest, "", ""), i);
    SuffixScan(s, pref, w, i, Three("Jan", g, d, x + rest, "", ""), x);
    AgainIsParsed(s, n + g + d + rest, loc, o, lib);
  }

  lemma SuffixParts(n: string, g: string, d: string, x: string, rest: string)
    requires Ordinal(x)
    ensures var s, i := n + g + d + x + rest, |n| + |g| + |d|;
            && |x| == 2 && s == Three(n, g, d, x + rest, "", "") && |s| == i + 2 + |rest|
            && s[i] == x[0] && s[i + 1] == x[1] && s[..i] + s[i + 2..] == n + g + d + rest
  {}

  lemma AgainIsParsed(s: string, t: string, loc: Loc, o: Options, lib: Lib)
    requires Scan(s, o.preferMonthFirst) == Again(t, true, s) && !o.retry
    ensures ParseTime(s, loc, o, lib) == ParseTime(t, loc, o, lib)
  {
    hide Scan;
  }

  lemma MonthBegins(s: string, pref: bool, n: string, d: string, rest: string) returns (w: Parser)
    requires s == Three(n, " ", d, rest, "", "") && FullName(n) && OneOrTwo(d)
    ensures DateStage(s, pref, w, |n| + 1 + |d|, s)
    ensures w.stateDate.DateAlphaWsMonth? || w.stateDate.DateAlphaWsMore?
  {
    hide RunDate, DateStage, DateInv, DateEndInv, Three, Render, Write, Roles, DateFlowInv, IsMonthFull, ToLower, IsDay;
    Fields(n, " ", d, rest, "", "", true, false, false);
    assert s[..|n|] == n by { ThreeParts(n, " ", d, rest, "", ""); }
    var v := NewParser(|s|).(stateDate := DateAlpha);
    WordBegins(s, pref, |n|);
    RenderFresh(s);
    w := v.(stateDate := if |s[|n|..]| < 10 then DateAlphaWsMonth else DateAlphaWsMore, fullMonth := ToLower(n), dayi := |n| + 1);
    DateGoes(s, pref, v, |n|, s, |n|, w, s);
    if w.stateDate.DateAlphaWsMonth? {
      MonthDigits(s, pref, w, |n| + 1, s, |n| + 1 + |d|);
    } else {
      DateQuiet(s, pref, w, |n| + 1, s, |n| + 1 + |d|);
    }
  }

  /** April 8th, 2009 */
  lemma FullMonthSuffixDropped(n: string, d: string, x: string, rest: string, loc: Loc, o: Options, lib: Lib)
    requires FullName(n) && OneOrTwo(d) && Ordinal(x) && rest != "" && !o.retry
    ensures ParseTime(n + " " + d + x + rest, loc, o, lib) == ParseTime(n + " " + d + rest, loc, o, lib)
  {
    hide RunDate, DateStage, DateInv, DateEndInv, Three, Render, Write, Roles, DateFlowInv, Scan, ParseTime, Ordinal;
    hide FullName, OneOrTwo;
    var s, i, pref := n + " " + d + x + rest, |n| + 1 + |d|, o.preferMonthFirst;
    SuffixParts(n, " ", d, x, rest);
    var w := MonthBegins(s, pref, n, d, x + rest);
    SuffixScan(s, pref, w, i, s, x);
    AgainIsParsed(s, n + " " + d + rest, loc, o, lib);
  }

  // ---------------------------------------------------------------- d January yyyy

  /** The layout is one of two texts, whatever month and year it is; the input is not changed. */
  lemma DayFullMonthLayout(d: string, n: string, y: string, loc: Loc, o: Options, lib: Lib)
    requires OneOrTwo(d) && Letters(n) && |n| > 3 && Digits(y) && y != ""
    ensures Gives(ParseTime(d + " " + n + " " + y, loc, o, lib), if |d| == 2 then "02 January 2006" else "2 January 2006",
                  d + " " + n + " " + y, false)
  {
    hide Scan, Render, OneOrTwo, Letters, Digits;
    var s, text := d + " " + n + " " + y, if |d| == 2 then "02 January 2006" else "2 January 2006";
    ThreeText(d, " ", n, " ", y);
    var p := DayMonthAlone(s, o.preferMonthFirst, d, n, y);
    LitReads(text, s);
    assert p.layout[0..] == p.layout && s[0..|s|] == s;
  }

  // ---------------------------------------------------------------- what is written over

  /** A month name behind a day of one digit and a slash: the slash is written over. */
  lemma ShortDayLayout(d: string, n: string, y: string, loc: Loc, o: Options, lib: Lib)
    requires Digits(d) && |d| == 1 && MonthName(n) && Digits(y) && (|y| == 2 || |y| == 4)
    ensures Gives(ParseTime(d + "/" + n + "/" + y, loc, o, lib), if |y| == 2 then "02Jan/06" else "02Jan/2006", d + "/" + n + "/" + y, false)
  {
    hide Scan, Render, Lays, Dated, Settled;
    var s, text := d + "/" + n + "/" + y, if |y| == 2 then "02Jan/06" else "02Jan/2006";
    assert s == Three(d + "/", "", n, "/", y, "") && text == Three("02", "", "Jan", "/", YearCode(y), "");
    var p := ShortDaySlash(s, o.preferMonthFirst, d, n, y);
    assert Settled(p, |s|) by { IsSettled(p, |s|); }
    SettledAlone(s, o.preferMonthFirst, p, text);
    WholeIsGiven(s, loc, o, lib, p, text);
  }

  lemma IsSettled(p: Parser, n: nat)
    requires p.stateDate.DateDigitSlashAlpha? || p.stateDate.DateAlphaWsAlpha?
    ensures Settled(p, n)
  {}

  lemma WholeIsGiven(s: string, loc: Loc, o: Options, lib: Lib, p: Parser, text: string)
    requires Lays(Scan(s, o.preferMonthFirst), p, s, |s|, text, false) && p.skip == 0 && p.fullMonth == "" && !p.ambiguousMD
    ensures Gives(ParseTime(s, loc, o, lib), text, s, false)
  {
    hide Scan, Render, ParseTime, ParsedLayout, ParsedInput;
    LaysHere(s, o.preferMonthFirst, p, |s|, text, false);
    PassIsAnswer(s, s, loc, o, lib, p, |s|, text, false);
    ParsedIs(ParseTime(s, loc, o, lib).x.value, |s|, text);
    assert s[0..|s|] == s;
  }

  /** Two words of which the first is no weekday are taken for a weekday and a month. */
  lemma TwoWordsLayout(w: string, n: string, rest: string, loc: Loc, o: Options, lib: Lib)
    requires MonthName(w) && NoDay(w) && MonthName(n) && rest != ""
    ensures Gives(ParseTime(w + " " + n + rest, loc, o, lib), "Mon Jan" + rest, w + " " + n + rest, false)
  {
    hide Scan, Render, Lays, Dated, Settled, NoDay;
    var s, text, pref := w + " " + n + rest, "Mon Jan" + rest, o.preferMonthFirst;
    TwoWordTexts(w, n, rest);
    var p := TwoWords(s, pref, w, n, rest);
    assert Settled(p, |s|) by { IsSettled(p, |s|); }
    EarlyAlone(s, pref, p, 5, text);
    WholeIsGiven(s, loc, o, lib, p, text);
  }

  lemma TwoWordTexts(w: string, n: string, rest: string)
    ensures w + " " + n + rest == Three(w, " ", n, rest, "", "") && "Mon Jan" + rest == Three("Mon", " ", "Jan", rest, "", "")
  {
    assert "Mon" + " " + "Jan" == "Mon Jan";
  }

  /** The date loop may be left before the end. */
  lemma EarlyAlone(s: string, pref: bool, p: Parser, k: nat, text: string)
    requires Dated(s, pref, p, k, text) && p.stateTime.TimeIgnore? && Settled(p, |s|)
    ensures Lays(Scan(s, pref), p, s, |s|, text, false)
  {
    hide RunDate, Finish, Render, Scan, Settled;
    ScanIs(s, pref, p, k, text);
    FinishSettled(p, s, k);
  }
}

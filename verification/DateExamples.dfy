// The layouts of examples, letter by letter.
module DateExamples {
  import opened DateText
  import opened DateParser
  import opened DateSpelling
  import opened DateClock
  import opened DateTail
  import opened DateEnding
  import opened DateNumbers
  import opened DateNames
  import opened DateMonths
  import opened DateLayouts
  import opened DateAgain

  /** The whole string is read, with that layout. */
  ghost predicate ReadAs(s: string, layout: string, monthFirst: bool, loc: Loc, lib: Lib) {
    Gives(ParseTime(s, loc, Options(monthFirst, false), lib), layout, s, false)
  }

  lemma Alone(s: string, layout: string, d: Date, monthFirst: bool, loc: Loc, lib: Lib)
    requires d.Valid() && d.Alone() && d.Dropped() == 0 && s == d.Text() && layout == d.Laid(monthFirst)
    ensures ReadAs(s, layout, monthFirst, loc, lib)
  {
    hide Gives, ParseTime, Date.Valid, Date.Text, Date.Laid;
    DateLayout(d, loc, Options(monthFirst, false), lib);
  }

  lemma WithClock(d: Date, j: string, at: string, c: Clock, x: Tail, date: string, join: string, clock: string, tail: string,
                  date': string, clock': string, tail': string, monthFirst: bool, loc: Loc, lib: Lib)
    requires d.Valid() && d.Joins(j) && c.Valid() && x.Valid(c) && (at == "" || (at == "at " && !d.NameDay?))
    requires (x.NeedsNoYear() ==> d.NameDay?) && d.Dropped() == 0 && x.Cut() == 0 && !x.InUtc()
    requires date == d.Text() && join == j + at && clock == c.Text() && tail == x.Text()
    requires date' == d.Laid(monthFirst) && clock' == c.Laid() && tail' == x.Laid(c)
    ensures ReadAs(date + join + clock + tail, date' + join + clock' + tail', monthFirst, loc, lib)
  {
    hide Gives, ParseTime, Date.Valid, Date.Joins, Date.Text, Date.Laid, Clock.Text, Clock.Laid, Tail.Text, Tail.Laid, Tail.Valid;
    DateTimeLayout(d, j, at, c, x, loc, Options(monthFirst, false), lib);
    Regroup(date, j, at);
    Regroup(date', j, at);
    var s := date + join + clock + tail;
    assert s[0..|s|] == s;
  }

  lemma Names()
    ensures NoDay("May") && NoDay("Aug") && NoDay("oct") && FullName("April") && FullName("September")
  {
    assert ToLower("May")[2] == 'y' && ToLower("Aug")[2] == 'g' && ToLower("oct")[2] == 't';
    assert ToLower("May")[1] == 'a' && ToLower("Aug")[1] == 'u' && ToLower("oct")[1] == 'c';
    assert ToLower("April") == "april" && ToLower("September") == "september";
  }

  lemma YearSlashExample(loc: Loc, lib: Lib)
    ensures ReadAs("2014/07/10" + " " + "06:55:38" + ".156283", "2006/01/02" + " " + "15:04:05" + ".000000", true, loc, lib)
  {
    hide ReadAs, ToLower, IsDay, IsMonthFull;
    WithClock(YearSlashes("2014", "07", "10"), " ", "", Clock("06", "55", "38"), Fraction("156283", End),
              "2014/07/10", " ", "06:55:38", ".156283", "2006/01/02", "15:04:05", ".000000", true, loc, lib);
  }

  lemma SlashExamples(loc: Loc, lib: Lib)
    ensures ReadAs("4/8/2014" + " " + "22:05" + "", "1/2/2006" + " " + "15:04" + "", true, loc, lib)
    ensures ReadAs("4/8/2014" + " " + "22:05" + "", "2/1/2006" + " " + "15:04" + "", false, loc, lib)
  {
    hide ReadAs, ToLower, IsDay, IsMonthFull;
    WithClock(Slashes("4", "8", "2014"), " ", "", Clock("22", "05", ""), Nothing,
              "4/8/2014", " ", "22:05", "", "1/2/2006", "15:04", "", true, loc, lib);
    WithClock(Slashes("4", "8", "2014"), " ", "", Clock("22", "05", ""), Nothing,
              "4/8/2014", " ", "22:05", "", "2/1/2006", "15:04", "", false, loc, lib);
  }

  lemma HalfDayExample(loc: Loc, lib: Lib)
    ensures ReadAs("May 8, 2009" + " " + "5:57:51" + " PM", "Jan 2, 2006" + " " + "3:04:05" + " PM", true, loc, lib)
  {
    hide ReadAs, ToLower, IsDay, IsMonthFull, NoDay, FullName;
    Names();
    WithClock(NameDayYear("May", " ", "8", ", ", "2009"), " ", "", Clock("5", "57", "51"), Spacing("", HalfDay("PM", "")),
              "May 8, 2009", " ", "5:57:51", " PM", "Jan 2, 2006", "3:04:05", " PM", true, loc, lib);
  }

  lemma OffsetExample(loc: Loc, lib: Lib)
    ensures ReadAs("2006-01-02" + "T" + "15:04:05" + "+0000", "2006-01-02" + "T" + "15:04:05" + "-0700", true, loc, lib)
  {
    hide ReadAs, ToLower, IsDay, IsMonthFull;
    WithClock(YearDashes("2006", "01", "02"), "T", "", Clock("15", "04", "05"), Offset(Hours('+', "00", "00", false)),
              "2006-01-02", "T", "15:04:05", "+0000", "2006-01-02", "15:04:05", "-0700", true, loc, lib);
  }

  lemma NamedOffsetExample(loc: Loc, lib: Lib)
    ensures ReadAs("2015-2-8" + " " + "03:02" + " +0300 MSK", "2006-1-2" + " " + "15:04" + " -0700 MST", true, loc, lib)
  {
    hide ReadAs, ToLower, IsDay, IsMonthFull;
    WithClock(YearDashes("2015", "2", "8"), " ", "", Clock("03", "02", ""), Spacing("", SpacedName(Hours('+', "03", "00", false), "MSK")),
              "2015-2-8", " ", "03:02", " +0300 MSK", "2006-1-2", "15:04", " -0700 MST", true, loc, lib);
  }

  lemma DayNameExample(loc: Loc, lib: Lib)
    ensures ReadAs("12 Feb 2006" + ", " + "19:17" + "", "02 Jan 2006" + ", " + "15:04" + "", true, loc, lib)
  {
    hide ReadAs, ToLower, IsDay, IsMonthFull;
    WithClock(DayMonthYear("12", "Feb", "2006"), ", ", "", Clock("19", "17", ""), Nothing,
              "12 Feb 2006", ", ", "19:17", "", "02 Jan 2006", "15:04", "", true, loc, lib);
  }

  lemma YearColonExample(loc: Loc, lib: Lib)
    ensures ReadAs("2014:7:10" + " " + "6:55" + "", "2006:1:02" + " " + "3:04" + "", true, loc, lib)
  {
    hide ReadAs, ToLower, IsDay, IsMonthFull;
    WithClock(YearColons("2014", "7", "10"), " ", "", Clock("6", "55", ""), Nothing,
              "2014:7:10", " ", "6:55", "", "2006:1:02", "3:04", "", true, loc, lib);
  }

  lemma ColonExample(loc: Loc, lib: Lib)
    ensures ReadAs("03:19:2012" + " " + "10:11" + "", "01:02:2006" + " " + "15:04" + "", true, loc, lib)
  {
    hide ReadAs, ToLower, IsDay, IsMonthFull;
    WithClock(ColonDate("03", "19", "2012"), " ", "", Clock("10", "11", ""), Nothing,
              "03:19:2012", " ", "10:11", "", "01:02:2006", "15:04", "", true, loc, lib);
  }

  lemma CompactExample(loc: Loc, lib: Lib)
    ensures ReadAs("171113" + " " + "14:14:20" + "", "060102" + " " + "15:04:05" + "", true, loc, lib)
  {
    hide ReadAs, ToLower, IsDay, IsMonthFull;
    WithClock(SixFigures("171113"), " ", "", Clock("14", "14", "20"), Nothing,
              "171113", " ", "14:14:20", "", "060102", "15:04:05", "", true, loc, lib);
  }

  lemma AtExample(loc: Loc, lib: Lib)
    ensures ReadAs("September 17, 2012" + " at " + "5:00" + "pm UTC-05", "January 02, 2006" + " at " + "3:04" + "pm MST-07", true, loc, lib)
  {
    hide ReadAs, ToLower, IsDay, IsMonthFull, NoDay, FullName;
    Names();
    WithClock(FullMonthDate("September", "17", ", ", "2012"), " ", "at ", Clock("5", "00", ""), Spacing("pm", NameOffset("UTC", Hours('-', "05", "", false))),
              "September 17, 2012", " at ", "5:00", "pm UTC-05", "January 02, 2006", "3:04", "pm MST-07", true, loc, lib);
  }

  lemma ShortWeekdayExample(loc: Loc, lib: Lib)
    ensures ReadAs("Thu, 4 Jan 18" + " " + "17:53" + " +0000", "Mon, 2 Jan 06" + " " + "15:04" + " -0700", true, loc, lib)
  {
    hide ReadAs, ToLower, IsDay, IsMonthFull;
    WithClock(ShortWeekday("Thu", "4", " ", "Jan", " ", "18"), " ", "", Clock("17", "53", ""), Spacing("", Spaced(Hours('+', "00", "00", false))),
              "Thu, 4 Jan 18", " ", "17:53", " +0000", "Mon, 2 Jan 06", "15:04", " -0700", true, loc, lib);
  }

  lemma YearLastExample(loc: Loc, lib: Lib)
    ensures ReadAs("May 8" + " " + "17:57:51" + " 2009", "Jan 2" + " " + "15:04:05" + " 2006", true, loc, lib)
  {
    hide ReadAs, ToLower, IsDay, IsMonthFull, NoDay, FullName;
    Names();
    WithClock(NameDay("May", " ", "8"), " ", "", Clock("17", "57", "51"), Spacing("", Year("2009")),
              "May 8", " ", "17:57:51", " 2009", "Jan 2", "15:04:05", " 2006", true, loc, lib);
  }

  lemma FractionZoneExample(loc: Loc, lib: Lib)
    ensures ReadAs("2012-08-03" + " " + "18:31:59" + ".257 +0000 UTC", "2006-01-02" + " " + "15:04:05" + ".000 -0700 UTC", true, loc, lib)
  {
    hide ReadAs, ToLower, IsDay, IsMonthFull;
    WithClock(YearDashes("2012", "08", "03"), " ", "", Clock("18", "31", "59"), Fraction("257", GapZoneText(Hours('+', "00", "00", false), "UTC")),
              "2012-08-03", " ", "18:31:59", ".257 +0000 UTC", "2006-01-02", "15:04:05", ".000 -0700 UTC", true, loc, lib);
  }

  lemma DayDashExamples(loc: Loc, lib: Lib)
    ensures ReadAs("29-Jun-2016", "02-Jan-2006", true, loc, lib)
    ensures ReadAs("9-Jun-16", "2-Jan-06", true, loc, lib)
  {
    hide ReadAs, ToLower, IsDay, IsMonthFull;
    Alone("29-Jun-2016", "02-Jan-2006", DayDashes("29", "Jun", "2016"), true, loc, lib);
    Alone("9-Jun-16", "2-Jan-06", DayDashes("9", "Jun", "16"), true, loc, lib);
  }

  lemma DaySlashExample(loc: Loc, lib: Lib)
    ensures ReadAs("08/May/2005", "02/Jan/2006", true, loc, lib)
  {
    hide ReadAs, ToLower, IsDay, IsMonthFull;
    Alone("08/May/2005", "02/Jan/2006", DaySlashes("08", "May", "2005"), true, loc, lib);
  }

  lemma DotExamples(loc: Loc, lib: Lib)
    ensures ReadAs("3.31.2014", "1.02.2006", true, loc, lib)
    ensures ReadAs("2018.09.30", "2006.01.02", false, loc, lib)
  {
    hide ReadAs, ToLower, IsDay, IsMonthFull;
    Alone("3.31.2014", "1.02.2006", Dots("3", "31", "2014"), true, loc, lib);
    Alone("2018.09.30", "2006.01.02", YearWithDots("2018", "09", "30"), false, loc, lib);
  }

  lemma FigureExamples(loc: Loc, lib: Lib)
    ensures ReadAs("20140601", "20060102", true, loc, lib)
    ensures ReadAs("2014", "2006", true, loc, lib)
  {
    hide ReadAs, ToLower, IsDay, IsMonthFull;
    Alone("20140601", "20060102", Figures("20140601"), true, loc, lib);
    Alone("2014", "2006", Figures("2014"), true, loc, lib);
  }

  lemma QuoteExample(loc: Loc, lib: Lib)
    ensures ReadAs("oct. 7, '70", "Jan. 2, '06", true, loc, lib)
  {
    hide ReadAs, ToLower, IsDay, IsMonthFull, NoDay, FullName;
    Names();
    Alone("oct. 7, '70", "Jan. 2, '06", NameDayYear("oct", ". ", "7", ", '", "70"), true, loc, lib);
  }

  lemma FullMonthExample(loc: Loc, lib: Lib)
    ensures ReadAs("April 8, 2009", "January 2, 2006", true, loc, lib)
  {
    hide ReadAs, ToLower, IsDay, IsMonthFull, NoDay, FullName;
    Names();
    Alone("April 8, 2009", "January 2, 2006", FullMonthDate("April", "8", ", ", "2009"), true, loc, lib);
  }

  lemma DashNameExample(loc: Loc, lib: Lib)
    ensures ReadAs("2013-Feb-03", "2006-Jan-02", true, loc, lib)
  {
    hide ReadAs, ToLower, IsDay, IsMonthFull;
    Alone("2013-Feb-03", "2006-Jan-02", YearDashesName("2013", "Feb", "03"), true, loc, lib);
  }

  lemma DashZoneExample(loc: Loc, lib: Lib)
    ensures ReadAs("2020-07-20+00:00", "2006-01-02-07:00", true, loc, lib)
  {
    hide ReadAs, ToLower, IsDay, IsMonthFull;
    Alone("2020-07-20+00:00", "2006-01-02-07:00", YearDashesZone("2020", "07", "20", Hours('+', "00", "00", true)), true, loc, lib);
  }
}

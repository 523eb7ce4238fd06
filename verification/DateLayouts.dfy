// The layouts of dates and times as text: a grammar of the forms that are recognised, and for
// each of them the Go layout it gets.
module DateLayouts {
  import opened DateText
  import opened DateParser
  import opened DateWalk
  import opened DateSpelling
  import opened DateClock
  import opened DateTail
  import opened DateEnding
  import opened DateFields
  import opened DateStages
  import opened DateNumbers
  import opened DateNames
  import opened DateMonths

  /** A date; y is always a year, d a day, n a month as a name and m as a number. */
  datatype Date =
    | YearDashes(y: string, m: string, d: string)              // 2014-05-11
    | YearDashesZone(y: string, m: string, d: string, z: Zone) // 2020-07-20+00:00
    | YearDashesName(y: string, n: string, d: string)          // 2013-Feb-03
    | YearMonthDash(y: string, m: string)                      // 2013-05
    | DayDashes(d: string, n: string, y: string)               // 03-Feb-2013 or 03-Feb-13
    | YearSlashes(y: string, m: string, d: string)             // 2014/07/10
    | Slashes(a: string, b: string, y: string)                 // 03/19/2012 or 19/03/2012
    | DaySlashes(d: string, n: string, y: string)              // 08/May/2005
    | YearColons(y: string, m: string, d: string)              // 2014:07:10
    | ColonDate(a: string, b: string, y: string)               // 03:19:2012
    | Dots(a: string, b: string, y: string)                    // 03.31.2014
    | YearWithDots(y: string, m: string, d: string)            // 2018.09.30
    | YearMonthDot(y: string, m: string)                       // 2018.09
    | DayMonthYear(d: string, n: string, y: string)            // 12 Feb 2006
    | SixFigures(digits: string)                               // 171113
    | Figures(digits: string)                                  // 2014, 20140601 or 20180722105203
    | NameDayYear(n: string, g: string, d: string, q: string, y: string) // oct 7, 1970, oct. 7, '70 or May 8 2009
    | NameDay(n: string, g: string, d: string)                 // May 8
    | FullMonthDate(n: string, d: string, q: string, y: string) // April 8, 2009
    | FullWeekday(w: string, d: string, q: string, n: string, u: string, y: string) // Monday, 02-Jan-06
    | ShortWeekday(w: string, d: string, q: string, n: string, u: string, y: string) // Mon, 02 Jan 2006
  {
    predicate Valid() {
      match this
      case YearDashes(y, m, d) => FourFigures(y) && OneOrTwo(m) && OneOrTwo(d)
      case YearDashesZone(y, m, d, z) => FourFigures(y) && OneOrTwo(m) && OneOrTwo(d) && z.Valid()
      case YearDashesName(y, n, d) => FourFigures(y) && MonthName(n) && OneOrTwo(d)
      case YearMonthDash(y, m) => FourFigures(y) && OneOrTwo(m)
      case DayDashes(d, n, y) => OneOrTwo(d) && MonthName(n) && AnyYear(y)
      case YearSlashes(y, m, d) => FourFigures(y) && OneOrTwo(m) && OneOrTwo(d)
      case Slashes(a, b, y) => OneOrTwo(a) && OneOrTwo(b) && AnyYear(y)
      case DaySlashes(d, n, y) => Digits(d) && |d| == 2 && MonthName(n) && AnyYear(y)
      case YearColons(y, m, d) => FourFigures(y) && OneOrTwo(m) && OneOrTwo(d)
      case ColonDate(a, b, y) => OneOrTwo(a) && OneOrTwo(b) && AnyYear(y)
      case Dots(a, b, y) => OneOrTwo(a) && OneOrTwo(b) && AnyYear(y)
      case YearWithDots(y, m, d) => FourFigures(y) && OneOrTwo(m) && OneOrTwo(d)
      case YearMonthDot(y, m) => FourFigures(y) && OneOrTwo(m)
      case DayMonthYear(d, n, y) => OneOrTwo(d) && MonthName(n) && AnyYear(y)
      case SixFigures(digits) => Digits(digits) && |digits| == 6
      case Figures(digits) => Digits(digits) && |digits| in {4, 8, 14}
      case NameDayYear(n, g, d, q, y) =>
        MonthName(n) && NoDay(n) && Gap(g) && OneOrTwo(d) && q in [" ", ", ", ", '"] && AnyYear(y)
      case NameDay(n, g, d) => MonthName(n) && NoDay(n) && Gap(g) && OneOrTwo(d)
      case FullMonthDate(n, d, q, y) => FullName(n) && OneOrTwo(d) && q in [" ", ", "] && AnyYear(y)
      case FullWeekday(w, d, q, n, u, y) =>
        Letters(w) && w != "" && |w| != 3 && OneOrTwo(d) && DashOrSpace(q) && MonthName(n) && DashOrSpace(u) && AnyYear(y)
      case ShortWeekday(w, d, q, n, u, y) =>
        MonthName(w) && OneOrTwo(d) && DashOrSpace(q) && MonthName(n) && DashOrSpace(u) && AnyYear(y)
    }

    function Text(): string {
      match this
      case YearDashes(y, m, d) => y + "-" + m + "-" + d
      case YearDashesZone(y, m, d, z) => y + "-" + m + "-" + d + z.Text()
      case YearDashesName(y, n, d) => y + "-" + n + "-" + d
      case YearMonthDash(y, m) => y + "-" + m
      case DayDashes(d, n, y) => d + "-" + n + "-" + y
      case YearSlashes(y, m, d) => y + "/" + m + "/" + d
      case Slashes(a, b, y) => a + "/" + b + "/" + y
      case DaySlashes(d, n, y) => d + "/" + n + "/" + y
      case YearColons(y, m, d) => y + ":" + m + ":" + d
      case ColonDate(a, b, y) => a + ":" + b + ":" + y
      case Dots(a, b, y) => a + "." + b + "." + y
      case YearWithDots(y, m, d) => y + "." + m + "." + d
      case YearMonthDot(y, m) => y + "." + m
      case DayMonthYear(d, n, y) => d + " " + n + " " + y
      case SixFigures(digits) => digits
      case Figures(digits) => digits
      case NameDayYear(n, g, d, q, y) => n + g + d + q + y
      case NameDay(n, g, d) => n + g + d
      case FullMonthDate(n, d, q, y) => n + " " + d + q + y
      case FullWeekday(w, d, q, n, u, y) => w + ", " + d + q + n + u + y
      case ShortWeekday(w, d, q, n, u, y) => w + ", " + d + q + n + u + y
    }

    /** What Go calls it.  A month that is a name is Jan, or January in full; of two numbers
        the first is the month if it is to come first. */
    function Laid(monthFirst: bool): string
      requires Valid()
    {
      match this
      case YearDashes(y, m, d) => "2006-" + MonthLaid(m) + "-" + DayLaid(d)
      case YearDashesZone(y, m, d, z) =>
        "2006-" + MonthLaid(m) + "-" + DayLaid(d) + if z.m == "" then z.Text() else if z.colon then "-07:00" else "-0700"
      case YearDashesName(y, n, d) => "2006-Jan-" + DayLaid(d)
      case YearMonthDash(y, m) => "2006-" + MonthLaid(m)
      case DayDashes(d, n, y) => DayLaid(d) + "-Jan-" + YearCode(y)
      case YearSlashes(y, m, d) => "2006/" + MonthLaid(m) + "/" + DayLaid(d)
      case Slashes(a, b, y) => if monthFirst then MonthLaid(a) + "/" + DayLaid(b) + "/" + YearCode(y) else DayLaid(a) + "/" + MonthLaid(b) + "/" + YearCode(y)
      case DaySlashes(d, n, y) => "02/Jan/" + YearCode(y)
      case YearColons(y, m, d) => "2006:" + MonthLaid(m) + ":" + DayLaid(d)
      case ColonDate(a, b, y) => if monthFirst then MonthLaid(a) + ":" + DayLaid(b) + ":" + YearCode(y) else a + ":" + b + ":" + y
      case Dots(a, b, y) => MonthLaid(a) + "." + DayLaid(b) + "." + YearCode(y)
      case YearWithDots(y, m, d) => "2006." + MonthLaid(m) + "." + DayLaid(d)
      case YearMonthDot(y, m) => "2006." + MonthLaid(m)
      case DayMonthYear(d, n, y) => DayLaid(d) + " Jan " + YearCode(y)
      case SixFigures(digits) => "060102"
      case Figures(digits) => if |digits| == 4 then "2006" else if |digits| == 8 then "20060102" else "20060102150405"
      case NameDayYear(n, g, d, q, y) => "Jan" + g + DayLaid(d) + q + YearCode(y)
      case NameDay(n, g, d) => "Jan" + g + DayLaid(d)
      case FullMonthDate(n, d, q, y) => "January " + DayLaid(d) + q + YearCode(y)
      case FullWeekday(w, d, q, n, u, y) => DayLaid(d) + q + "Jan" + u + YearCode(y)
      case ShortWeekday(w, d, q, n, u, y) => "Mon, " + DayLaid(d) + q + "Jan" + u + YearCode(y)
    }

    /** How much of the input is dropped in front. */
    function Dropped(): nat {
      match this
      case FullWeekday(w, _, _, _, _, _) => |w| + 2
      case _ => 0
    }

    /** Which dates the retry may read the other way round. */
    predicate Ambiguous() {
      match this
      case Slashes(_, _, _) | ColonDate(_, _, _) | Dots(_, _, _) => true
      case DayDashes(_, _, y) => |y| == 2
      case _ => false
    }

    predicate Alone() { !NameDay? && !SixFigures? && (FullMonthDate? ==> |d| + |q| + |y| < 9) }

    /** What may stand between the date and a clock. */
    predicate Joins(j: string) {
      && j != "" && (forall k :: 1 <= k < |j| ==> j[k] == ' ')
      && match this
         case YearDashes(_, _, _) => j[0] == ' ' || j[0] == 'T'
         case YearSlashes(_, _, _) | DaySlashes(_, _, _) => j[0] == ' ' || j[0] == ':'
         case DayDashes(_, _, _) | Slashes(_, _, _) | YearColons(_, _, _) | ColonDate(_, _, _) | SixFigures(_)
            | FullWeekday(_, _, _, _, _, _) | ShortWeekday(_, _, _, _, _, _) => j[0] == ' '
         case DayMonthYear(_, _, _) => j[0] == ' ' || (j[0] == ',' && |j| > 1)
         case NameDayYear(_, _, _, q, _) => j[0] == ' ' || (j[0] == ',' && q != " ")
         case NameDay(_, _, _) => j == " "
         case FullMonthDate(_, _, _, y) => |y| == 4 && (j[0] == ' ' || (j[0] == ',' && |j| > 1))
         case _ => false
    }
  }

  predicate FourFigures(y: string) { Digits(y) && |y| == 4 }

  predicate AnyYear(y: string) { Digits(y) && (|y| == 2 || |y| == 4) }

  // ---------------------------------------------------------------- what the buffer holds

  /** The parser keeps a full month and a weekday to be skipped as they are. */
  function Buffer(d: Date, monthFirst: bool): string
    requires d.Valid()
  {
    match d
    case FullMonthDate(n, a, q, y) => n + " " + DayLaid(a) + q + YearCode(y)
    case FullWeekday(w, a, q, n, u, y) => w + ", " + DayLaid(a) + q + "Jan" + u + YearCode(y)
    case _ => d.Laid(monthFirst)
  }

  /** What a parser of such a date has besides. */
  ghost predicate Marked(d: Date, p: Parser) {
    && p.skip == d.Dropped() && p.t.None? && p.ambiguousMD == d.Ambiguous()
    && (if d.FullMonthDate? then p.fullMonth == ToLower(d.n) && p.moi == 0 else p.fullMonth == "")
  }

  /** A date on its own. */
  lemma DateAloneLays(d: Date, s: string, pref: bool) returns (p: Parser)
    requires d.Valid() && d.Alone() && s == d.Text()
    ensures Lays(Scan(s, pref), p, s, |s|, Buffer(d, pref), false) && Marked(d, p)
  {
    if d.YearDashes? || d.YearSlashes? || d.Slashes? || d.YearColons? || d.ColonDate? {
      p := NumbersAlone(d, s, pref);
    } else if d.Dots? || d.YearWithDots? || d.YearMonthDot? || d.YearMonthDash? || d.YearDashesZone? || d.Figures? {
      p := OddsAlone(d, s, pref);
    } else {
      p := NamesAlone(d, s, pref);
    }
  }

  lemma NumbersAlone(d: Date, s: string, pref: bool) returns (p: Parser)
    requires d.Valid() && s == d.Text()
    requires d.YearDashes? || d.YearSlashes? || d.Slashes? || d.YearColons? || d.ColonDate?
    ensures Lays(Scan(s, pref), p, s, |s|, Buffer(d, pref), false) && Marked(d, p)
  {
    hide RunDate, Three, Render, Write, Scan, Lays, Dated, OneOrTwo, MonthLaid, DayLaid, YearCode, ToLower, FullName, NoDay, Gap, Zone.Text;
    hide DateEndInv, Untimed;
    YearFirst();
    match d
    case YearDashes(y, m, a) =>
      ThreeText(y, "-", m, "-", a);
      ThreeText("2006", "-", MonthLaid(m), "-", DayLaid(a));
      p := YearDashDay(s, pref, y, m, a, "");
      SettledAlone(s, pref, p, Three("2006", "-", MonthLaid(m), "-", DayLaid(a), ""));
    case YearSlashes(y, m, a) =>
      ThreeText(y, "/", m, "/", a);
      ThreeText("2006", "/", MonthLaid(m), "/", DayLaid(a));
      p := YearSlashDay(s, pref, y, m, a, "");
      SettledAlone(s, pref, p, Three("2006", "/", MonthLaid(m), "/", DayLaid(a), ""));
    case YearColons(y, m, a) =>
      ThreeText(y, ":", m, ":", a);
      ThreeText("2006", ":", MonthLaid(m), ":", DayLaid(a));
      p := YearColonDay(s, pref, y, m, a, "");
      SettledAlone(s, pref, p, Three("2006", ":", MonthLaid(m), ":", DayLaid(a), ""));
    case Slashes(a, b, y) =>
      ThreeText(a, "/", b, "/", y);
      ThreeText(FirstLaid(pref, a), "/", FirstLaid(!pref, b), "/", YearCode(y));
      p := SlashYear(s, pref, a, b, y, "");
      SettledAlone(s, pref, p, Three(FirstLaid(pref, a), "/", FirstLaid(!pref, b), "/", YearCode(y), ""));
    case ColonDate(a, b, y) =>
      ThreeText(a, ":", b, ":", y);
      if pref {
        ThreeText(MonthLaid(a), ":", DayLaid(b), ":", YearCode(y));
        p := ColonYear(s, a, b, y, "");
        SettledAlone(s, pref, p, Three(MonthLaid(a), ":", DayLaid(b), ":", YearCode(y), ""));
      } else {
        p := ColonsUnlaid(s, a, b, y, "");
        SettledAlone(s, pref, p, s);
      }
  }

  lemma ThreeText(a: string, p: string, b: string, q: string, c: string)
    ensures Three(a, p, b, q, c, "") == a + p + b + q + c
  {}

  lemma YearFirst()
    ensures "2006" + "-" == "2006-" && "2006" + "/" == "2006/" && "2006" + ":" == "2006:" && "2006" + "." == "2006."
  {}

  lemma OddsAlone(d: Date, s: string, pref: bool) returns (p: Parser)
    requires d.Valid() && s == d.Text()
    requires d.Dots? || d.YearWithDots? || d.YearMonthDot? || d.YearMonthDash? || d.YearDashesZone? || d.Figures?
    ensures Lays(Scan(s, pref), p, s, |s|, Buffer(d, pref), false) && Marked(d, p)
  {
    hide RunDate, Three, Render, Write, Scan, Lays, Dated, OneOrTwo, MonthLaid, DayLaid, YearCode, ToLower, FullName, NoDay, Gap, Zone.Text;
    hide DateEndInv, Untimed;
    YearFirst();
    match d
    case Dots(a, b, y) =>
      ThreeText(a, ".", b, ".", y);
      ThreeText(MonthLaid(a), ".", DayLaid(b), ".", YearCode(y));
      p := DotParts(s, pref, a, b, y);
      SettledAlone(s, pref, p, Three(MonthLaid(a), ".", DayLaid(b), ".", YearCode(y), ""));
    case YearWithDots(y, m, a) =>
      ThreeText(y, ".", m, ".", a);
      ThreeText("2006", ".", MonthLaid(m), ".", DayLaid(a));
      p := YearDots(s, pref, y, m, a);
      SettledAlone(s, pref, p, Three("2006", ".", MonthLaid(m), ".", DayLaid(a), ""));
    case YearMonthDot(y, m) =>
      TwoText(y, ".", m);
      TwoText("2006", ".", MonthLaid(m));
      p := YearDotMonth(s, pref, y, m);
    case YearMonthDash(y, m) =>
      TwoText(y, "-", m);
      TwoText("2006", "-", MonthLaid(m));
      p := YearDashAlone(s, pref, y, m);
      SettledAlone(s, pref, p, Three("2006", "-", MonthLaid(m), "", "", ""));
    case YearDashesZone(y, m, a, z) =>
      FourText(y, "-", m, "-", a, z.Text());
      FourText("2006", "-", MonthLaid(m), "-", DayLaid(a), if z.m == "" then z.Text() else z.Laid());
      p := YearDashOffset(s, pref, y, m, a, z);
    case Figures(digits) =>
      p := DigitsAlone(s, pref);
  }

  lemma TwoText(a: string, p: string, b: string)
    ensures Three(a, p, b, "", "", "") == a + p + b
  {}

  lemma FourText(a: string, p: string, b: string, q: string, c: string, r: string)
    ensures Three(a, p, b, q, c, r) == a + p + b + q + c + r
  {}

  lemma NamesAlone(d: Date, s: string, pref: bool) returns (p: Parser)
    requires d.Valid() && d.Alone() && s == d.Text()
    requires d.YearDashesName? || d.DayDashes? || d.DaySlashes? || d.DayMonthYear? || d.NameDayYear? || d.FullMonthDate?
             || d.FullWeekday? || d.ShortWeekday?
    ensures Lays(Scan(s, pref), p, s, |s|, Buffer(d, pref), false) && Marked(d, p)
  {
    hide RunDate, Three, Render, Write, Scan, Lays, Dated, OneOrTwo, MonthLaid, DayLaid, YearCode, ToLower, FullName, NoDay, Gap, Zone.Text;
    hide DateEndInv, Untimed;
    NamedTexts();
    match d
    case YearDashesName(y, n, a) =>
      ThreeText(y, "-", n, "-", a);
      ThreeText("2006", "-", "Jan", "-", DayLaid(a));
      p := DashNameDayAlone(s, pref, y, n, a);
    case DayDashes(a, n, y) =>
      ThreeText(a, "-", n, "-", y);
      NamedText(DayLaid(a), "-", YearCode(y));
      p := DashNameAlone(s, pref, a, n, y);
    case DaySlashes(a, n, y) =>
      ThreeText(a, "/", n, "/", y);
      NamedText("02", "/", YearCode(y));
      p := SlashNameYear(s, pref, a, n, y, "");
      SettledAlone(s, pref, p, Three("02", "/", "Jan", "/", YearCode(y), ""));
    case DayMonthYear(a, n, y) =>
      ThreeText(a, " ", n, " ", y);
      NamedText(DayLaid(a), " ", YearCode(y));
      p := DayNameYear(s, pref, a, n, y, "");
      SettledAlone(s, pref, p, Three(DayLaid(a), " ", "Jan", " ", YearCode(y), ""));
    case _ => p := WordsAlone(d, s, pref);
  }

  lemma WordsAlone(d: Date, s: string, pref: bool) returns (p: Parser)
    requires d.Valid() && d.Alone() && s == d.Text()
    requires d.NameDayYear? || d.FullMonthDate? || d.FullWeekday? || d.ShortWeekday?
    ensures Lays(Scan(s, pref), p, s, |s|, Buffer(d, pref), false) && Marked(d, p)
  {
    hide RunDate, Three, Render, Write, Scan, Lays, Dated, OneOrTwo, MonthLaid, DayLaid, YearCode, ToLower, FullName, NoDay, Gap, Zone.Text;
    hide DateEndInv, Untimed;
    match d
    case NameDayYear(n, g, a, q, y) =>
      ThreeText(n, g, a, q, y);
      ThreeText("Jan", g, DayLaid(a), q, YearCode(y));
      if q == " " {
        p := SpaceYear(s, pref, n, g, a, y, "");
        SettledAlone(s, pref, p, Three("Jan", g, DayLaid(a), q, YearCode(y), ""));
      } else {
        p := CommaYearAlone(s, pref, n, g, a, q, y);
      }
    case FullMonthDate(n, a, q, y) =>
      ThreeText(n, " ", a, q, y);
      ThreeText(n, " ", DayLaid(a), q, YearCode(y));
      p := MonthDayYear(s, pref, n, a, q, y);
    case _ => p := WeekdaysAlone(d, s, pref);
  }

  lemma NamedTexts()
    ensures "2006" + "-" + "Jan" + "-" == "2006-Jan-" && "02" + "/Jan/" == "02/Jan/"
  {}

  lemma NamedText(a: string, p: string, c: string)
    requires p == "-" || p == "/" || p == " "
    ensures Three(a, p, "Jan", p, c, "") == a + (if p == "-" then "-Jan-" else if p == "/" then "/Jan/" else " Jan ") + c
  {}

  lemma WeekdaysAlone(d: Date, s: string, pref: bool) returns (p: Parser)
    requires d.Valid() && s == d.Text() && (d.FullWeekday? || d.ShortWeekday?)
    ensures Lays(Scan(s, pref), p, s, |s|, Buffer(d, pref), false) && Marked(d, p)
  {
    hide RunDate, Three, Render, Write, Scan, Lays, Dated, OneOrTwo, MonthLaid, DayLaid, YearCode, ToLower, FullName, NoDay, Gap, Zone.Text;
    hide DateEndInv, Untimed;
    match d
    case FullWeekday(w, a, q, n, u, y) =>
      WeekdayText(w, a, q, n, u, y);
      ThreeText(w + ", " + DayLaid(a), q, "Jan", u, YearCode(y));
      p := WeekdayYear(s, pref, w, a, q, n, u, y, "");
      SettledAlone(s, pref, p, Three(w + ", " + DayLaid(a), q, "Jan", u, YearCode(y), ""));
    case ShortWeekday(w, a, q, n, u, y) =>
      WeekdayText(w, a, q, n, u, y);
      ThreeText("Mon, " + DayLaid(a), q, "Jan", u, YearCode(y));
      p := AbbrevYear(s, pref, w, a, q, n, u, y, "");
      SettledAlone(s, pref, p, Three("Mon, " + DayLaid(a), q, "Jan", u, YearCode(y), ""));
  }

  lemma WeekdayText(w: string, d: string, q: string, n: string, u: string, y: string)
    ensures w + ", " + d + q + n + u + y == Three(w, ", ", d, q, n, u + y + "")
  {}

  // ---------------------------------------------------------------- before a clock

  predicate SpacesAt(s: string, i: nat, j: nat) { j <= |s| && forall k :: i <= k < j ==> s[k] == ' ' }

  ghost predicate Ready(d: Date, p: Parser, s: string) {
    && p.stateTime.TimeStart? && Settled(p, |s|) && p.offseti == 0 && Marked(d, p) && (d.NameDay? ==> p.yeari == 0)
  }

  lemma JoinSpaces(t: string, j: string, r: string)
    requires forall k :: 1 <= k < |j| ==> j[k] == ' '
    ensures SpacesAt(t + (j + r), |t| + 1, |t| + |j|)
    ensures j != "" && j[0] == ' ' ==> SpacesAt(t + (j + r), |t|, |t| + |j|)
  {}

  /** The loop is left at the join or before it, and only spaces follow there. */
  lemma DateOpens(d: Date, s: string, pref: bool, j: string, r: string, h: string) returns (p: Parser, k: nat)
    requires d.Valid() && d.Joins(j) && s == d.Text() + (j + r) && |r| >= 3
    requires d.NameDay? ==> OneOrTwo(h) && |h| < |r| && r[..|h|] == h && r[|h|] == ':'
    ensures Dated(s, pref, p, k, Buffer(d, pref) + (j + r)) && Ready(d, p, s)
    ensures k < |d.Text()| + |j| && SpacesAt(s, k + 1, |d.Text()| + |j|)
  {
    if d.YearDashes? || d.YearSlashes? || d.Slashes? || d.YearColons? || d.ColonDate? {
      p, k := NumbersOpen(d, s, pref, j, r);
    } else if d.DayDashes? || d.DaySlashes? || d.DayMonthYear? || d.SixFigures? {
      p, k := DaysOpen(d, s, pref, j, r);
    } else if d.NameDay? {
      p, k := NameDayOpens(d, s, pref, j, r, h);
    } else {
      p, k := WordsOpen(d, s, pref, j, r);
    }
  }

  lemma NumbersOpen(d: Date, s: string, pref: bool, j: string, r: string) returns (p: Parser, k: nat)
    requires d.Valid() && d.Joins(j) && s == d.Text() + (j + r) && |r| >= 3 && (d.YearDashes? || d.YearSlashes? || d.Slashes? || d.YearColons? || d.ColonDate?)
    ensures Dated(s, pref, p, k, Buffer(d, pref) + (j + r)) && Ready(d, p, s)
    ensures k < |d.Text()| + |j| && SpacesAt(s, k + 1, |d.Text()| + |j|)
  {
    hide RunDate, Three, Render, Write, Dated, OneOrTwo, MonthLaid, DayLaid, YearCode, ToLower, FullName, NoDay, Gap, Zone.Text;
    hide DateEndInv, Untimed;
    YearFirst();
    JoinSpaces(d.Text(), j, r);
    k := |d.Text()|;
    var u := j + r;
    match d
    case YearDashes(y, m, a) =>
      FourText(y, "-", m, "-", a, u);
      FourText("2006", "-", MonthLaid(m), "-", DayLaid(a), u);
      p := YearDashDay(s, pref, y, m, a, u);
    case YearSlashes(y, m, a) =>
      FourText(y, "/", m, "/", a, u);
      FourText("2006", "/", MonthLaid(m), "/", DayLaid(a), u);
      p := YearSlashDay(s, pref, y, m, a, u);
    case YearColons(y, m, a) =>
      FourText(y, ":", m, ":", a, u);
      FourText("2006", ":", MonthLaid(m), ":", DayLaid(a), u);
      p := YearColonDay(s, pref, y, m, a, u);
    case Slashes(a, b, y) =>
      FourText(a, "/", b, "/", y, u);
      FourText(FirstLaid(pref, a), "/", FirstLaid(!pref, b), "/", YearCode(y), u);
      p := SlashYear(s, pref, a, b, y, u);
    case ColonDate(a, b, y) =>
      FourText(a, ":", b, ":", y, u);
      if pref {
        FourText(MonthLaid(a), ":", DayLaid(b), ":", YearCode(y), u);
        p := ColonYear(s, a, b, y, u);
      } else {
        p := ColonsUnlaid(s, a, b, y, u);
      }
  }

  lemma DaysOpen(d: Date, s: string, pref: bool, j: string, r: string) returns (p: Parser, k: nat)
    requires d.Valid() && d.Joins(j) && s == d.Text() + (j + r) && |r| >= 3 && (d.DayDashes? || d.DaySlashes? || d.DayMonthYear? || d.SixFigures?)
    ensures Dated(s, pref, p, k, Buffer(d, pref) + (j + r)) && Ready(d, p, s)
    ensures k < |d.Text()| + |j| && SpacesAt(s, k + 1, |d.Text()| + |j|)
  {
    hide RunDate, Three, Render, Write, Dated, OneOrTwo, MonthLaid, DayLaid, YearCode, ToLower, FullName, NoDay, Gap, Zone.Text;
    hide DateEndInv, Untimed;
    JoinSpaces(d.Text(), j, r);
    k := |d.Text()|;
    var u := j + r;
    match d
    case DayDashes(a, n, y) =>
      FourText(a, "-", n, "-", y, u);
      NamedFour(DayLaid(a), "-", YearCode(y), u);
      p := DashNameYear(s, pref, a, n, y, u);
    case DaySlashes(a, n, y) =>
      NamedTexts();
      FourText(a, "/", n, "/", y, u);
      NamedFour("02", "/", YearCode(y), u);
      p := SlashNameYear(s, pref, a, n, y, u);
    case DayMonthYear(a, n, y) =>
      FourText(a, " ", n, " ", y, u);
      NamedFour(DayLaid(a), " ", YearCode(y), u);
      p := DayNameYear(s, pref, a, n, y, u);
      if j[0] == ',' { k := k + 1; }
    case SixFigures(digits) =>
      p := SixDigits(s, pref, digits, u);
  }

  lemma NamedFour(a: string, p: string, c: string, r: string)
    requires p == "-" || p == "/" || p == " "
    ensures Three(a, p, "Jan", p, c, r) == a + (if p == "-" then "-Jan-" else if p == "/" then "/Jan/" else " Jan ") + c + r
  {}

  lemma NameDayOpens(d: Date, s: string, pref: bool, j: string, r: string, h: string) returns (p: Parser, k: nat)
    requires d.Valid() && d.Joins(j) && s == d.Text() + (j + r) && |r| >= 3 && d.NameDay?
    requires OneOrTwo(h) && |h| < |r| && r[..|h|] == h && r[|h|] == ':'
    ensures Dated(s, pref, p, k, Buffer(d, pref) + (j + r)) && Ready(d, p, s)
    ensures k < |d.Text()| + |j| && SpacesAt(s, k + 1, |d.Text()| + |j|)
  {
    hide RunDate, Three, Render, Write, Dated, OneOrTwo, MonthLaid, DayLaid, YearCode, ToLower, FullName, NoDay, Gap, Zone.Text;
    hide DateEndInv, Untimed;
    JoinSpaces(d.Text(), j, r);
    SomeDigit(h);
    var c := r[|h|..];
    assert r == h + c;
    HourText(d.n, d.g, d.d, h, c);
    HourText("Jan", d.g, DayLaid(d.d), h, c);
    p := HourForYear(s, pref, d.n, d.g, d.d, h, c);
    k := 1 + |d.g| + |d.d| + |h|;
  }

  lemma HourText(n: string, g: string, d: string, h: string, c: string)
    ensures Three(n, g, d, " ", h, c) == n + g + d + (" " + (h + c))
  {}

  lemma WordsOpen(d: Date, s: string, pref: bool, j: string, r: string) returns (p: Parser, k: nat)
    requires d.Valid() && d.Joins(j) && s == d.Text() + (j + r) && |r| >= 3 && (d.NameDayYear? || d.FullMonthDate? || d.FullWeekday? || d.ShortWeekday?)
    ensures Dated(s, pref, p, k, Buffer(d, pref) + (j + r)) && Ready(d, p, s)
    ensures k < |d.Text()| + |j| && SpacesAt(s, k + 1, |d.Text()| + |j|)
  {
    hide RunDate, Three, Render, Write, Dated, OneOrTwo, MonthLaid, DayLaid, YearCode, ToLower, FullName, NoDay, Gap, Zone.Text;
    hide DateEndInv, Untimed;
    JoinSpaces(d.Text(), j, r);
    k := |d.Text()|;
    var u := j + r;
    match d
    case NameDayYear(n, g, a, q, y) =>
      FourText(n, g, a, q, y, u);
      FourText("Jan", g, DayLaid(a), q, YearCode(y), u);
      if q == " " {
        p := SpaceYear(s, pref, n, g, a, y, u);
      } else {
        p := CommaYearEnds(s, pref, n, g, a, q, y, u);
      }
    case FullMonthDate(_, _, _, _) => p, k := FullMonthOpens(d, s, pref, j, r);
    case _ => p, k := WeekdaysOpen(d, s, pref, j, r);
  }

  lemma FullMonthOpens(d: Date, s: string, pref: bool, j: string, r: string) returns (p: Parser, k: nat)
    requires d.Valid() && d.Joins(j) && s == d.Text() + (j + r) && |r| >= 3 && d.FullMonthDate?
    ensures Dated(s, pref, p, k, Buffer(d, pref) + (j + r)) && Ready(d, p, s)
    ensures k < |d.Text()| + |j| && SpacesAt(s, k + 1, |d.Text()| + |j|)
  {
    hide RunDate, Three, Render, Write, Dated, OneOrTwo, MonthLaid, DayLaid, YearCode, ToLower, FullName, NoDay, Gap, Zone.Text;
    hide DateEndInv, Untimed;
    JoinSpaces(d.Text(), j, r);
    var u := j + r;
    FourText(d.n, " ", d.d, d.q, d.y, u);
    FourText(d.n, " ", DayLaid(d.d), d.q, YearCode(d.y), u);
    SomeDigit(d.d);
    p := MonthMoreYear(s, pref, d.n, d.d, d.q, d.y, u);
    k := |d.Text()| + if j[0] == ',' then 1 else 0;
  }

  lemma WeekdaysOpen(d: Date, s: string, pref: bool, j: string, r: string) returns (p: Parser, k: nat)
    requires d.Valid() && d.Joins(j) && s == d.Text() + (j + r) && |r| >= 3 && (d.FullWeekday? || d.ShortWeekday?)
    ensures Dated(s, pref, p, k, Buffer(d, pref) + (j + r)) && Ready(d, p, s)
    ensures k < |d.Text()| + |j| && SpacesAt(s, k + 1, |d.Text()| + |j|)
  {
    hide RunDate, Three, Render, Write, Dated, OneOrTwo, MonthLaid, DayLaid, YearCode, ToLower, FullName, NoDay, Gap, Zone.Text;
    hide DateEndInv, Untimed;
    JoinSpaces(d.Text(), j, r);
    k := |d.Text()|;
    var u := j + r;
    match d
    case FullWeekday(w, a, q, n, v, y) =>
      WeekdayFour(w, a, q, n, v, y, u);
      FourText(w + ", " + DayLaid(a), q, "Jan", v, YearCode(y), u);
      p := WeekdayYear(s, pref, w, a, q, n, v, y, u);
    case ShortWeekday(w, a, q, n, v, y) =>
      WeekdayFour(w, a, q, n, v, y, u);
      FourText("Mon, " + DayLaid(a), q, "Jan", v, YearCode(y), u);
      p := AbbrevYear(s, pref, w, a, q, n, v, y, u);
  }

  lemma SomeDigit(a: string)
    requires OneOrTwo(a)
    ensures 1 <= |a| <= 2
  {}

  lemma WeekdayFour(w: string, d: string, q: string, n: string, u: string, y: string, r: string)
    ensures w + ", " + d + q + n + u + y + r == Three(w, ", ", d, q, n, u + y + r)
  {}

  // ---------------------------------------------------------------- what parseTime returns

  /** parseTime succeeds; what the library is then asked with is that layout and that input. */
  ghost predicate Gives(r: Outcome, layout: string, input: string, zulu: bool) {
    && r.err.None? && r.x.Some? && Sound(r.x.value)
    && ParsedLayout(r.x.value) == layout && ParsedInput(r.x.value) == input && r.x.value.p.zulu == zulu
  }

  /** A pass that ends is the answer, unless the retry asks about it. */
  lemma PassIsAnswer(s: string, ds: string, loc: Loc, o: Options, lib: Lib, p: Parser, n: nat, text: string, zulu: bool)
    requires LaysIn(Scan(s, o.preferMonthFirst), p, ds, s, n, text, zulu) && (o.retry ==> !p.ambiguousMD)
    ensures var u := Scan(s, o.preferMonthFirst).res.p.value;
            ParseTime(s, loc, o, lib) == Outcome(Some(Parsed(u, ds, s, loc, o.preferMonthFirst)), None)
  {
    hide Scan, Render, Parse, Sound;
  }

  lemma LaysHere(s: string, pref: bool, p: Parser, n: nat, text: string, zulu: bool)
    requires Lays(Scan(s, pref), p, s, n, text, zulu)
    ensures LaysIn(Scan(s, pref), p, s, s, n, text, zulu)
  {
    hide Scan, Render;
  }

  lemma ParsedIs(x: Parsed, n: nat, text: string)
    requires Sound(x) && |x.p.layout| == x.p.dlen == n && Render(x.p.layout, x.input) == text && n <= |x.ds|
    ensures x.p.skip == 0 && x.p.fullMonth == "" ==> ParsedLayout(x) == text && ParsedInput(x) == x.ds[0..n]
    ensures 0 < x.p.skip < n ==> ParsedLayout(x) == text[x.p.skip..] && ParsedInput(x) == x.ds[x.p.skip..n]
    ensures x.p.skip == 0 && x.p.fullMonth != "" && x.p.moi == 0 ==>
              |x.p.fullMonth| <= |text| && ParsedLayout(x) == "January" + text[|x.p.fullMonth|..] && ParsedInput(x) == x.ds[0..n]
  {
    hide Roles;
    assert |Render(x.p.layout, x.input)| == |x.p.layout|;
    if x.p.fullMonth != "" && x.p.moi == 0 && x.p.skip == 0 {
      assert FullMonth(x.p)[0..] == FullMonth(x.p);
      MonthReads(x.p.layout, x.input, |x.p.fullMonth|);
    }
    if x.p.skip == 0 && x.p.fullMonth == "" { assert x.p.layout[0..] == x.p.layout; }
    if 0 < x.p.skip < n { RestRead(x.p.layout, x.input, x.p.skip); }
  }

  lemma MonthReads(l: seq<Cell>, s: string, k: nat)
    requires k <= |l|
    ensures Render(Lit("January") + l[k..], s) == "January" + Render(l, s)[k..]
  {}

  lemma RestRead(l: seq<Cell>, s: string, k: nat)
    requires k <= |l|
    ensures Render(l[k..], s) == Render(l, s)[k..]
  {}

  /** The buffer of a date with something behind it, and what is shown of it. */
  lemma BufferShown(d: Date, pref: bool, t: string)
    requires d.Valid()
    ensures d.FullMonthDate? ==> |ToLower(d.n)| == |d.n| > 0 && "January" + (Buffer(d, pref) + t)[|d.n|..] == d.Laid(pref) + t
    ensures d.FullWeekday? ==> 0 < d.Dropped() < |d.Text()| && (Buffer(d, pref) + t)[d.Dropped()..] == d.Laid(pref) + t
    ensures !d.FullMonthDate? && !d.FullWeekday? ==> Buffer(d, pref) == d.Laid(pref)
    ensures !d.FullWeekday? ==> d.Dropped() == 0
  {
    hide MonthLaid, YearCode, OneOrTwo, Zone.Text, MonthName, FullName, Gap, NoDay;
    if d.FullMonthDate? { MonthShown(d.n, DayLaid(d.d), d.q, YearCode(d.y), t); NameLength(d.n); }
    if d.FullWeekday? { WeekdayShown(d.w, DayLaid(d.d), d.q, d.u, YearCode(d.y), t); }
  }

  lemma NameLength(n: string)
    requires FullName(n)
    ensures |n| > 0
  {}

  lemma MonthShown(n: string, d: string, q: string, y: string, t: string)
    ensures "January" + ((n + " " + d + q + y) + t)[|n|..] == ("January " + d + q + y) + t
  {
    assert ((n + " " + d + q + y) + t)[|n|..] == " " + d + q + y + t;
  }

  lemma WeekdayShown(w: string, d: string, q: string, u: string, y: string, t: string)
    ensures ((w + ", " + d + q + "Jan" + u + y) + t)[|w| + 2..] == (d + q + "Jan" + u + y) + t
  {}

  /** From the end of the pass to the answer. */
  lemma PassGives(d: Date, s: string, ds: string, loc: Loc, o: Options, lib: Lib, p: Parser, n: nat, t: string, zulu: bool)
    requires d.Valid() && LaysIn(Scan(s, o.preferMonthFirst), p, ds, s, n, Buffer(d, o.preferMonthFirst) + t, zulu) && Marked(d, p)
    requires |d.Text()| <= n <= |ds| && (o.retry ==> !d.Ambiguous())
    ensures Gives(ParseTime(s, loc, o, lib), d.Laid(o.preferMonthFirst) + t, ds[d.Dropped()..n], zulu)
  {
    hide Scan, Render, ParseTime, Buffer, Date.Laid, Date.Valid, Date.Text, ParsedLayout, ParsedInput, ToLower;
    PassIsAnswer(s, ds, loc, o, lib, p, n, Buffer(d, o.preferMonthFirst) + t, zulu);
    var x := ParseTime(s, loc, o, lib).x.value;
    ParsedIs(x, n, Buffer(d, o.preferMonthFirst) + t);
    BufferShown(d, o.preferMonthFirst, t);
  }

  /** Every date of the grammar, alone: parseTime lays it out as Go writes it, whatever the
      library answers. */
  lemma DateLayout(d: Date, loc: Loc, o: Options, lib: Lib)
    requires d.Valid() && d.Alone() && (o.retry ==> !d.Ambiguous())
    ensures Gives(ParseTime(d.Text(), loc, o, lib), d.Laid(o.preferMonthFirst), d.Text()[d.Dropped()..], false)
  {
    hide Lays, LaysIn, Marked, Scan, Buffer, Date.Laid, Date.Valid, Date.Text, ParseTime, Gives;
    var s := d.Text();
    var p := DateAloneLays(d, s, o.preferMonthFirst);
    assert Buffer(d, o.preferMonthFirst) + "" == Buffer(d, o.preferMonthFirst);
    assert d.Laid(o.preferMonthFirst) + "" == d.Laid(o.preferMonthFirst);
    LaysHere(s, o.preferMonthFirst, p, |s|, Buffer(d, o.preferMonthFirst), false);
    PassGives(d, s, s, loc, o, lib, p, |s|, "", false);
    assert s[d.Dropped()..|s|] == s[d.Dropped()..] by { BufferShown(d, o.preferMonthFirst, ""); }
  }

  /** Every date of the grammar with every clock behind it, and everything that may follow the
      clock: each part is laid out as Go writes it, and what is cut off is cut off the input as
      well.  The word at may stand before the clock. */
  lemma DateTimeLayout(d: Date, j: string, at: string, c: Clock, x: Tail, loc: Loc, o: Options, lib: Lib)
    requires d.Valid() && d.Joins(j) && c.Valid() && x.Valid(c) && (o.retry ==> !d.Ambiguous())
    requires at == "" || (at == "at " && !d.NameDay?)
    requires x.NeedsNoYear() ==> d.NameDay?
    ensures var s := d.Text() + j + at + c.Text() + x.Text();
            && d.Dropped() <= |s| - x.Cut()
            && Gives(ParseTime(s, loc, o, lib), d.Laid(o.preferMonthFirst) + j + at + c.Laid() + x.Laid(c),
                     s[d.Dropped()..|s| - x.Cut()], x.InUtc())
  {
    hide Lays, LaysIn, Marked, Scan, Buffer, Date.Laid, Date.Valid, Date.Text, Date.Joins, ParseTime, Gives;
    hide Clock.Text, Clock.Laid, Tail.Text, Tail.Laid, Tail.Cut, Tail.Valid, Tail.NeedsNoYear;
    var s := d.Text() + j + at + c.Text() + x.Text();
    var t := j + at + c.Laid() + x.Laid(c);
    var p := DateTimeScan(d, j, at, c, x, o.preferMonthFirst);
    CutInside(c, x);
    LaysHere(s, o.preferMonthFirst, p, |s| - x.Cut(), Buffer(d, o.preferMonthFirst) + t, x.InUtc());
    PassGives(d, s, s, loc, o, lib, p, |s| - x.Cut(), t, x.InUtc());
    FiveWords(d.Laid(o.preferMonthFirst), j, at, c.Laid(), x.Laid(c));
    assert d.Dropped() <= |d.Text()| by { BufferShown(d, o.preferMonthFirst, ""); }
  }

  lemma FiveWords(a: string, b: string, c: string, d: string, e: string)
    ensures a + (b + c + d + e) == a + b + c + d + e
  {}

  lemma CutInside(c: Clock, x: Tail)
    requires x.Valid(c)
    ensures x.Cut() <= |x.Text()|
  {
    hide Zone.Text, Abbreviation, Unspaced;
  }

  lemma DateTimeScan(d: Date, j: string, at: string, c: Clock, x: Tail, pref: bool) returns (p: Parser)
    requires d.Valid() && d.Joins(j) && c.Valid() && x.Valid(c) && (x.NeedsNoYear() ==> d.NameDay?)
    requires at == "" || (at == "at " && !d.NameDay?)
    ensures var s := d.Text() + j + at + c.Text() + x.Text();
            && x.Cut() <= |s| && Marked(d, p)
            && Lays(Scan(s, pref), p, s, |s| - x.Cut(), Buffer(d, pref) + (j + at + c.Laid() + x.Laid(c)), x.InUtc())
  {
    hide Lays, Scan, Tailed, TimeInv, Buffer, Before, Date.Laid, Date.Valid, Date.Text, Date.Joins;
    hide Clock.Text, Clock.Laid, Tail.Text, Tail.Laid, Tail.Cut, Tail.Valid, Tail.NeedsNoYear;
    var s, pre := d.Text() + j + at + c.Text() + x.Text(), Buffer(d, pref) + j + at;
    p := DateClockScan(d, j, at, c, x.Text(), pref);
    TailLays(p, s, c, pre, |pre| + |c.Text()|, x);
    FiveWords(Buffer(d, pref), j, at, c.Laid(), x.Laid(c));
  }

  /** The pass is what the time loop makes of the clock c and the rest behind it, with `pre`
      laid out before them. */
  ghost predicate Arrives(s: string, pref: bool, p: Parser, c: Clock, pre: string, rest: string) {
    var e := |pre| + |c.Text()|;
    e + |rest| == |s| && s[e..] == rest && Before(p, s, c, pre, e) && Scan(s, pref) == Tailed(p, s, |pre|)
  }

  /** The pass comes to the clock with the date laid out. */
  lemma DateClockScan(d: Date, j: string, at: string, c: Clock, rest: string, pref: bool) returns (p: Parser)
    requires d.Valid() && d.Joins(j) && c.Valid() && (at == "" || (at == "at " && !d.NameDay?))
    ensures var s, pre := d.Text() + j + at + c.Text() + rest, Buffer(d, pref) + j + at;
            Marked(d, p) && (d.NameDay? ==> p.yeari == 0) && Arrives(s, pref, p, c, pre, rest)
  {
    hide Arrives, Buffer, Date.Laid, Date.Valid, Date.Text, Date.Joins, Dated, Settled, Clock.Text, Clock.Laid;
    var t, b := c.Text() + rest, Buffer(d, pref);
    var s := d.Text() + j + at + c.Text() + rest;
    Joined(d.Text(), j, at, c.Text(), rest);
    ClockLong(c, rest);
    assert |at + t| >= 3 && (at == "" ==> at + t == t);
    var k;
    p, k := DateOpens(d, s, pref, j, at + t, c.h);
    ClockJoins(d, s, pref, p, k, j, at, c, rest);
  }

  lemma ClockJoins(d: Date, s: string, pref: bool, p: Parser, k: nat, j: string, at: string, c: Clock, rest: string)
    requires d.Valid() && c.Valid() && (at == "" || at == "at ") && s == d.Text() + j + at + c.Text() + rest
    requires Dated(s, pref, p, k, Buffer(d, pref) + (j + (at + (c.Text() + rest)))) && Ready(d, p, s)
    requires k < |d.Text()| + |j| && SpacesAt(s, k + 1, |d.Text()| + |j|)
    ensures Arrives(s, pref, p, c, Buffer(d, pref) + j + at, rest)
  {
    hide Marked, Scan, Tailed, TimeInv, Before, Buffer, Date.Laid, Date.Valid, Date.Text, Dated, Settled, Clock.Text, Clock.Laid;
    var b := Buffer(d, pref);
    var pre := b + j + at;
    Joined(d.Text(), j, at, c.Text(), rest);
    BufferLength(s, pref, p, k, b, j + (at + (c.Text() + rest)), |d.Text()|);
    Placed(s, d.Text(), b, j, at, c.Text(), rest);
    if at == "" {
      DateThenClock(s, pref, p, k, pre, c, |pre| + |c.Text()|);
    } else {
      DateAtClock(s, pref, p, k, pre, c, |pre| + |c.Text()|);
    }
  }

  lemma BufferLength(s: string, pref: bool, p: Parser, k: nat, b: string, t: string, n: nat)
    requires Dated(s, pref, p, k, b + t) && |s| == n + |t|
    ensures |b| == n
  {
    assert |Render(p.layout, s)| == |p.layout|;
  }

  /** Where the clock and what follows it are, when b is as long as the date. */
  lemma Placed(s: string, d: string, b: string, j: string, at: string, c: string, x: string)
    requires s == d + j + at + c + x && |b| == |d|
    ensures var pre := b + j + at;
            && |pre| + |c| + |x| == |s| && s[|pre|..] == c + x && s[|pre|..|pre| + |c|] == c && s[|pre| + |c|..] == x
            && b + (j + (at + (c + x))) == pre + s[|pre|..]
            && (at == "at " ==> |pre| >= 3 && pre[|pre| - 3..] == "at " && s[|pre| - 3] == 'a' && s[|pre| - 2] == 't' && s[|pre| - 1] == ' ')
  {
    var pre := b + j + at;
    assert s[|pre|..] == c + x;
    if at == "at " {
      assert s[|d| + |j|..|pre|] == at;
      assert s[|pre| - 3] == at[0] && s[|pre| - 2] == at[1] && s[|pre| - 1] == at[2];
    }
  }

  lemma ClockLong(c: Clock, rest: string)
    requires c.Valid()
    ensures var t := c.Text() + rest; |t| >= 3 && |c.h| < |t| && t[..|c.h|] == c.h && t[|c.h|] == ':' && OneOrTwo(c.h)
  {}

  lemma Joined(t: string, j: string, at: string, c: string, x: string)
    ensures t + j + at + c + x == t + (j + (at + (c + x))) == (t + j + at) + (c + x)
  {}
}

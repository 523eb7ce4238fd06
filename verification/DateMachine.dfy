// The parser as the source has it: an object with a byte buffer, both updated in place by
// two loops.  Its methods are proved to do what the functions of DateParser say.
module DateMachine {
  import opened DateText
  import opened Int64
  import opened DateParser
  import opened DateShape

  /** What one turn of a scanning loop leaves to do. */
  datatype Turn =
    | Onward(i: int)
    | Leave(i: int)
    | Over(s: string, keepOptions: bool)
    | Answer(keepParser: bool, err: Error)

  /** The dates whose last span is still open when the string ends. */
  predicate EndsInSpan(d: DateState) {
    || d.DateYearDashAlphaDash? || d.DateDigitDashAlphaDash? || d.DateDigitDot?
    || d.DateAlphaWsMonth? || d.DateAlphaWsDigitMoreWs?
  }

  class LiveParser {
    // The string it was made from, and the location it was given.
    ghost const input: string
    ghost const home: Loc
    const preferMonthFirst: bool
    // Its states and spans.
    var p: Parser
    // Where the bytes of format come from; nothing reads it.
    ghost var layout: seq<Cell>
    var format: seq<char>
    var datestr: string
    var loc: Loc

    /** The parser of the specification that this object stands for. */
    ghost function View(): Parser reads this { p.(layout := layout, dlen := |datestr|) }

    /** The bytes of the buffer are what its cells stand for; datestr begins the local string. */
    ghost predicate Valid(ds: string) reads this {
      && format == Render(layout, input)
      && datestr <= ds
      && loc == if p.zulu then UTC else home
    }

    constructor (s: string, loc: Loc, o: Options)
      ensures input == s && home == loc && preferMonthFirst == o.preferMonthFirst
      ensures Valid(s) && View() == NewParser(|s|)
    {
      input, home, this.loc, preferMonthFirst := s, loc, loc, o.preferMonthFirst;
      p, layout, format, datestr := NewParser(0), Fresh(|s|), s, s;
    }

    // -------------------------------------------------------------- writing the buffer

    /** Bytes are written one by one, and none if they do not all fit. */
    method Set(start: int, val: string)
      requires format == Render(layout, input)
      modifies this`format, this`layout
      ensures format == Render(layout, input) && View() == old(View()).Set(start, val)
    {
      ghost var before := format;
      if !(start < 0 || |format| < start + |val|) {
        for k := 0 to |val|
          invariant |format| == |before| && View() == old(View())
          invariant forall j :: 0 <= j < |format| ==>
                      format[j] == if start <= j < start + k then val[j - start] else before[j]
        {
          format := format[start + k := val[k]];
        }
      }
      layout := Write(layout, start, val);
      assert |format| == |layout| && forall j :: 0 <= j < |format| ==> format[j] == Render(layout, input)[j];
    }

    method SetMonth()
      requires format == Render(layout, input)
      modifies this`format, this`layout
      ensures format == Render(layout, input) && View() == old(View()).SetMonth()
    {
      hide Render, Write;
      if p.molen == 2 { Set(p.moi, "01"); } else if p.molen == 1 { Set(p.moi, "1"); }
    }

    method SetDay()
      requires format == Render(layout, input)
      modifies this`format, this`layout
      ensures format == Render(layout, input) && View() == old(View()).SetDay()
    {
      hide Render, Write;
      if p.daylen == 2 { Set(p.dayi, "02"); } else if p.daylen == 1 { Set(p.dayi, "2"); }
    }

    method SetYear()
      requires format == Render(layout, input)
      modifies this`format, this`layout
      ensures format == Render(layout, input) && View() == old(View()).SetYear()
    {
      hide Render, Write;
      if p.yearlen == 2 { Set(p.yeari, "06"); } else if p.yearlen == 4 { Set(p.yeari, "2006"); }
    }

    method CoalesceDate(end: int)
      requires format == Render(layout, input)
      modifies this`format, this`p, this`layout
      ensures format == Render(layout, input) && View() == old(View()).CoalesceDate(end)
    {
      hide Render, Write, Either;
      if p.yeari > 0 {
        if p.yearlen == 0 { p := p.(yearlen := end - p.yeari); }
        SetYear();
      }
      CoalesceMonthDay(end);
    }

    /** The month and the day, if they are still open. */
    method CoalesceMonthDay(end: int)
      requires format == Render(layout, input)
      modifies this`format, this`p, this`layout
      ensures format == Render(layout, input)
      ensures var q := old(View());
              var ml := if q.moi > 0 && q.molen == 0 then end - q.moi else q.molen;
              var dl := if q.dayi > 0 && q.daylen == 0 then end - q.dayi else q.daylen;
              var l2 := if q.moi > 0 && q.molen == 0 then Either(q.layout, q.moi, ml, 2, "01", 1, "1") else q.layout;
              var l3 := if q.dayi > 0 && q.daylen == 0 then Either(l2, q.dayi, dl, 2, "02", 1, "2") else l2;
              View() == q.(molen := ml, daylen := dl, layout := l3)
    {
      hide Render, Write, Either;
      if p.moi > 0 && p.molen == 0 {
        p := p.(molen := end - p.moi);
        SetMonth();
      }
      if p.dayi > 0 && p.daylen == 0 {
        p := p.(daylen := end - p.dayi);
        SetDay();
      }
    }

    /** The last loop writes to the buffer unguarded; it stays inside it. */
    method CoalesceTime(end: int)
      requires format == Render(layout, input) && FractionFits(View())
      modifies this`format, this`p, this`layout
      ensures format == Render(layout, input) && View() == old(View()).CoalesceTime(end)
    {
      CoalesceClock(end);
      if p.msi > 0 {
        ghost var before := format;
        var k := 0;
        while k < p.mslen
          invariant 0 <= k && (k <= p.mslen || k == 0) && |format| == |before|
          invariant forall j :: 0 <= j < |format| ==> format[j] == if p.msi <= j < p.msi + k then '0' else before[j]
          modifies this`format
        {
          format := format[p.msi + k := '0'];
          k := k + 1;
        }
        if p.mslen > 0 { layout := Zeros(layout, p.msi, p.mslen); }
        assert |format| == |layout| && forall j :: 0 <= j < |format| ==> format[j] == Render(layout, input)[j];
      }
    }

    method SetHour(two: string, one: string)
      requires format == Render(layout, input)
      modifies this`format, this`layout
      ensures format == Render(layout, input)
      ensures View() == old(View()).(layout := Either(old(View()).layout, old(View()).houri, old(View()).hourlen, 2, two, 1, one))
    {
      hide Render, Write;
      if p.hourlen == 2 { Set(p.houri, two); } else if p.hourlen == 1 { Set(p.houri, one); }
    }

    method SetMinute(end: int)
      requires format == Render(layout, input) && p.mini > 0
      modifies this`format, this`p, this`layout
      ensures format == Render(layout, input)
      ensures var n := if old(View()).minlen == 0 then end - old(View()).mini else old(View()).minlen;
              View() == old(View()).(minlen := n, layout := Write(old(View()).layout, old(View()).mini, if n == 2 then "04" else "4"))
    {
      hide Render, Write;
      if p.minlen == 0 { p := p.(minlen := end - p.mini); }
      Set(p.mini, if p.minlen == 2 then "04" else "4");
    }

    method SetSecond(end: int)
      requires format == Render(layout, input) && p.seci > 0
      modifies this`format, this`p, this`layout
      ensures format == Render(layout, input)
      ensures var n := if old(View()).seclen == 0 then end - old(View()).seci else old(View()).seclen;
              View() == old(View()).(seclen := n, layout := Write(old(View()).layout, old(View()).seci, if n == 2 then "05" else "5"))
    {
      hide Render, Write;
      if p.seclen == 0 { p := p.(seclen := end - p.seci); }
      Set(p.seci, if p.seclen == 2 then "05" else "5");
    }

    method CoalesceClock(end: int)
      requires format == Render(layout, input)
      modifies this`format, this`p, this`layout
      ensures format == Render(layout, input) && View() == old(View()).CoalesceClock(end)
    {
      hide Render, Write, Either;
      if p.houri > 0 { SetHour("15", "3"); }
      if p.mini > 0 { SetMinute(end); }
      if p.seci > 0 { SetSecond(end); }
    }

    method TrimExtra(ghost ds: string)
      requires Valid(ds) && |format| == |datestr|
      modifies this`format, this`datestr, this`p, this`layout
      ensures Valid(ds) && View() == old(View()).TrimExtra()
    {
      if p.extra > 0 && |format| > p.extra {
        format := format[..p.extra];
        datestr := datestr[..p.extra];
        layout := layout[..p.extra];
      }
    }

    /** The object and the turn are what a flow of the specification says. */
    ghost predicate Does(f: Flow, out: Turn, ds: string) reads this {
      match f
      case Next(q, d, j) => out == Onward(j) && View() == q && ds == d
      case Break(q, d, j) => out == Leave(j) && View() == q && ds == d
      case Restart(s, keep, d) => out == Over(s, keep) && ds == d
      case Return(res) => res.err.Some? && out == Answer(res.p.Some?, res.err.value) && (res.p.Some? ==> res.p.value == View())
    }

    // -------------------------------------------------------------- turns of the date loop

    /** The part before an ambiguous separator: the month, or the day if the day comes first;
        before a colon it is never taken for the day. */
    method FirstPart(i: int, slash: bool)
      requires format == Render(layout, input)
      modifies this`p, this`layout, this`format
      ensures format == Render(layout, input)
      ensures var q := old(View()).(ambiguousMD := true);
              View() == if preferMonthFirst && q.molen == 0 then q.(molen := i).SetMonth().(dayi := i + 1)
                   else if !preferMonthFirst && slash && q.daylen == 0 then q.(daylen := i).SetDay().(moi := i + 1)
                   else q
    {
      hide Render, Write;
      p := p.(ambiguousMD := true);
      if preferMonthFirst {
        if p.molen == 0 {
          p := p.(molen := i);
          SetMonth();
          p := p.(dayi := i + 1);
        }
      } else if slash && p.daylen == 0 {
        p := p.(daylen := i);
        SetDay();
        p := p.(moi := i + 1);
      }
    }

    /** A slash after the first number. */
    method FirstSlash(s: string, i: nat) returns (out: Turn)
      requires Valid(s) && DateAt(View(), s, i) && p.stateDate.DateDigit?
      modifies this`p, this`layout, this`format
      ensures Valid(s) && Does(OnDigitSlash1(old(View()), preferMonthFirst, s, i), out, s)
    {
      hide Render, Write, DateFlowInv, Either;
      if i == 4 {
        p := p.(stateDate := DateDigitYearSlash, yearlen := i, moi := i + 1);
        SetYear();
      } else if i + 2 < |datestr| && IsLetter(s[i + 1]) {
        p := p.(stateDate := DateDigitSlashAlpha, moi := i + 1, daylen := 2, dayi := 0);
        SetDay();
        return Onward(i + 1);
      } else {
        p := p.(stateDate := DateDigitSlash);
        FirstPart(i, true);
      }
      p := p.(part1Len := i);
      return Onward(i + 1);
    }

    /** A colon after the first number. */
    method FirstColon(s: string, i: nat) returns (out: Turn)
      requires Valid(s) && DateAt(View(), s, i) && p.stateDate.DateDigit?
      modifies this`p, this`layout, this`format
      ensures Valid(s) && Does(OnDigitColon1(old(View()), preferMonthFirst, s, i), out, s)
    {
      hide Render, Write, DateFlowInv, Either;
      p := p.(stateDate := DateDigitColon);
      if i == 4 {
        p := p.(yearlen := i, moi := i + 1);
        SetYear();
      } else {
        FirstPart(i, false);
      }
      p := p.(part1Len := i);
      return Onward(i + 1);
    }

    /** A dot after the first number. */
    method FirstDot(s: string, i: nat) returns (out: Turn)
      requires Valid(s) && DateAt(View(), s, i) && p.stateDate.DateDigit?
      modifies this`p, this`layout, this`format
      ensures Valid(s) && Does(OnDigitDot1(old(View()), s, i), out, s)
    {
      hide Render, Write, DateFlowInv, Either;
      p := p.(stateDate := DateDigitDot);
      if i == 4 {
        p := p.(yearlen := i, moi := i + 1);
        SetYear();
      } else {
        p := p.(ambiguousMD := true, moi := 0, molen := i);
        SetMonth();
        p := p.(dayi := i + 1);
      }
      p := p.(part1Len := i);
      return Onward(i + 1);
    }

    /** In the first number. */
    method DigitTurn(s: string, i: nat) returns (out: Turn)
      requires Valid(s) && DateAt(View(), s, i) && p.stateDate.DateDigit?
      modifies this`p, this`layout, this`format
      ensures Valid(s) && Does(DigitsStep(old(View()), preferMonthFirst, s, i), out, s)
    {
      hide Render, Write, DateFlowInv, OnDigitSlash1, OnDigitColon1, OnDigitDot1;
      match s[i] {
        case '-' =>
          if i == 4 {
            p := p.(stateDate := DateYearDash, yeari := 0, yearlen := i, moi := i + 1);
            Set(0, "2006");
          } else {
            p := p.(stateDate := DateDigitDash);
          }
        case '/' => out := FirstSlash(s, i); return;
        case ':' => out := FirstColon(s, i); return;
        case '.' => out := FirstDot(s, i); return;
        case ' ' =>
          p := if i == 6 then p.(stateDate := DateDigitSt) else p.(stateDate := DateDigitWs, dayi := 0, daylen := i);
        case ',' => return Answer(false, Unknown);
        case _ => return Onward(i + 1);
      }
      p := p.(part1Len := i);
      return Onward(i + 1);
    }

    /** A day, a space, and in the name of the month. */
    method DayMonthTurn(s: string, i: nat) returns (out: Turn)
      requires Valid(s) && DateAt(View(), s, i) && p.stateDate.DateDigitWs?
      modifies this`p, this`layout, this`format
      ensures Valid(s) && Does(OnDigitWs(old(View()), s, i), out, s)
    {
      hide Render, Write, DateFlowInv;
      var r := s[i];
      if r == ' ' {
        p := p.(yeari := i + 1, dayi := 0, daylen := p.part1Len);
        SetDay();
        p := p.(stateTime := TimeStart);
        if i > p.daylen + 4 {
          p := p.(stateDate := DateDigitWsMolong);
        } else {
          p := p.(moi := p.daylen + 1, molen := i - (p.daylen + 1));
          Set(p.moi, "Jan");
          p := p.(stateDate := DateDigitWsMoYear);
        }
      }
      return Onward(i + 1);
    }

    /** In the second of three numbers with dots. */
    method DotTurn(s: string, i: nat) returns (out: Turn)
      requires Valid(s) && DateAt(View(), s, i) && p.stateDate.DateDigitDot?
      modifies this`p, this`layout, this`format
      ensures Valid(s) && Does(OnDigitDot(old(View()), s, i), out, s)
    {
      hide Render, Write, DateFlowInv;
      var r := s[i];
      if r == '.' {
        if p.moi == 0 {
          p := p.(daylen := i - p.dayi, yeari := i + 1);
          SetDay();
        } else {
          p := p.(molen := i - p.moi, dayi := i + 1);
          SetMonth();
        }
        p := p.(stateDate := DateDigitDotDot);
      }
      return Onward(i + 1);
    }

    /** After a first number. */
    method DigitsTurn(s: string, i: nat) returns (out: Turn)
      requires Valid(s) && DateAt(View(), s, i) && !p.stateDate.DateDigit?
      modifies this`p, this`layout, this`format
      ensures Valid(s) && Does(DigitsStep(old(View()), preferMonthFirst, s, i), out, s)
    {
      hide Render, Write, DateFlowInv, Either, OnDigitWs, OnDigitDot;
      var r := s[i];
      match p.stateDate {
        case DateDigitSt =>
          Set(0, "060102");
          p := p.(stateTime := TimeStart);
          return Leave(i - 1);
        case DateDigitWs => out := DayMonthTurn(s, i); return;
        case DateDigitWsMoYear =>
          if r == ',' || r == ' ' {
            p := p.(yearlen := i - p.yeari);
            SetYear();
            return Leave(if r == ',' then i + 1 else i);
          }
        case DateDigitWsMolong =>
        case DateDigitDot => out := DotTurn(s, i); return;
        case DateDigitDotDot =>
        case _ => return Leave(i);
      }
      return Onward(i + 1);
    }

    /** In the day of a date with dashes, year first. */
    method DashedDayTurn(s: string, i: nat) returns (out: Turn)
      requires Valid(s) && DateAt(View(), s, i) && p.stateDate.DateYearDashDash?
      modifies this`p, this`layout, this`format
      ensures Valid(s) && Does(OnYearDashDash(old(View()), s, i), out, s)
    {
      hide Render, Write, DateFlowInv;
      var r := s[i];
      if r == '+' || r == '-' {
        p := p.(offseti := i, daylen := i - p.dayi, stateDate := DateYearDashDashOffset);
        SetDay();
      } else if r == ' ' || r == 'T' {
        p := p.(daylen := i - p.dayi, stateDate := if r == 'T' then DateYearDashDashT else DateYearDashDashWs);
        p := p.(stateTime := TimeStart);
        SetDay();
        return Leave(i);
      }
      return Onward(i + 1);
    }

    /** Year first, with dashes. */
    method DashesTurn(s: string, i: nat) returns (out: Turn)
      requires Valid(s) && DateAt(View(), s, i)
      modifies this`p, this`layout, this`format
      ensures Valid(s) && Does(DashesStep(old(View()), s, i), out, s)
    {
      hide Either, Render, Write, DateFlowInv, OnYearDashDash;
      var r := s[i];
      match p.stateDate {
        case DateYearDash =>
          if r == '-' {
            p := p.(molen := i - p.moi, dayi := i + 1, stateDate := DateYearDashDash);
            SetMonth();
          } else if IsLetter(r) {
            p := p.(stateDate := DateYearDashAlphaDash);
          }
        case DateYearDashDash => out := DashedDayTurn(s, i); return;
        case DateYearDashDashT =>
        case DateYearDashDashOffset =>
          if r == ':' { Set(p.offseti, "-07:00"); }
        case DateYearDashAlphaDash =>
          if r == '-' {
            p := p.(molen := i - p.moi);
            Set(p.moi, "Jan");
            p := p.(dayi := i + 1);
          }
        case _ => return Leave(i);
      }
      return Onward(i + 1);
    }

    /** dd-mon-yyyy or dd-mon-yy: the first part was the day. */
    method SetDashYear(length: int)
      requires format == Render(layout, input)
      modifies this`p, this`layout, this`format
      ensures format == Render(layout, input) && View() == DashYear(old(View()), length)
      ensures View().dlen == old(View()).dlen && p.zulu == old(p.zulu)
    {
      hide Render, Write;
      if length == 4 {
        p := p.(yearlen := 4);
        Set(p.yeari, "2006");
        p := p.(dayi := 0, daylen := p.part1Len);
        SetDay();
      } else if length == 2 {
        p := p.(ambiguousMD := true, yearlen := 2);
        Set(p.yeari, "06");
        p := p.(dayi := 0, daylen := p.part1Len);
        SetDay();
      }
    }

    /** Day, month name and year with dashes. */
    method DayDashesTurn(s: string, i: nat) returns (out: Turn)
      requires Valid(s) && DateAt(View(), s, i)
      modifies this`p, this`layout, this`format
      ensures Valid(s) && Does(DayDashesStep(old(View()), s, i), out, s)
    {
      hide Either, Render, Write, DateFlowInv, DashYear;
      var r := s[i];
      match p.stateDate {
        case DateDigitDash =>
          if !IsLetter(r) { return Answer(false, Unknown); }
          p := p.(stateDate := DateDigitDashAlpha, moi := i);
        case DateDigitDashAlpha =>
          if r == '-' {
            p := p.(molen := i - p.moi);
            Set(p.moi, "Jan");
            p := p.(yeari := i + 1, stateDate := DateDigitDashAlphaDash);
          }
        case DateDigitDashAlphaDash =>
          if r == ' ' {
            p := p.(stateTime := TimeStart);
            SetDashYear(i - (p.moi + p.molen + 1));
            return Leave(i);
          }
        case _ => return Leave(i);
      }
      return Onward(i + 1);
    }

    /** In the name of a month between slashes. */
    method SlashWordTurn(s: string, i: nat) returns (out: Turn)
      requires Valid(s) && DateAt(View(), s, i) && p.stateDate.DateDigitSlashAlpha?
      modifies this`p, this`layout, this`format
      ensures Valid(s) && Does(OnDigitSlashAlpha(old(View()), s, i), out, s)
    {
      hide Render, Write, DateFlowInv;
      var r := s[i];
      if r == '/' {
        if p.molen == 0 {
          Set(p.moi, "Jan");
          p := p.(yeari := i + 1);
        }
      } else if r == ' ' || r == ':' {
        YearThenTime(i);
        return Leave(i);
      }
      return Onward(i + 1);
    }

    /** After a first slash. */
    method SlashTurn(s: string, i: nat) returns (out: Turn)
      requires Valid(s) && DateAt(View(), s, i) && p.stateDate.DateDigitSlash?
      modifies this`p, this`layout, this`format
      ensures Valid(s) && Does(OnDigitSlash(old(View()), preferMonthFirst, s, i), out, s)
    {
      hide Render, Write, DateFlowInv, Either;
      var r := s[i];
      if r == '/' {
        SecondPart(i);
      } else if r == ' ' {
        YearThenTime(i);
        return Leave(i);
      }
      return Onward(i + 1);
    }

    /** After a year and a slash. */
    method YearSlashTurn(s: string, i: nat) returns (out: Turn)
      requires Valid(s) && DateAt(View(), s, i) && p.stateDate.DateDigitYearSlash?
      modifies this`p, this`layout, this`format
      ensures Valid(s) && Does(OnDigitYearSlash(old(View()), s, i), out, s)
    {
      hide Render, Write, DateFlowInv;
      var r := s[i];
      if r == ' ' || r == ':' {
        p := p.(stateTime := TimeStart);
        if p.daylen == 0 {
          p := p.(daylen := i - p.dayi);
          SetDay();
        }
        return Leave(i);
      } else if r == '/' && p.molen == 0 {
        p := p.(molen := i - p.moi);
        SetMonth();
        p := p.(dayi := i + 1);
      }
      return Onward(i + 1);
    }

    /** Dates with slashes or colons. */
    method SlashesTurn(s: string, i: nat) returns (out: Turn)
      requires Valid(s) && DateAt(View(), s, i)
      modifies this`p, this`layout, this`format
      ensures Valid(s) && Does(SlashesStep(old(View()), preferMonthFirst, s, i), out, s)
    {
      hide Render, Write, DateFlowInv, Either, OnDigitColon, OnDigitYearSlash, OnDigitSlash, OnDigitSlashAlpha;
      match p.stateDate {
        case DateDigitYearSlash => out := YearSlashTurn(s, i); return;
        case DateDigitSlashAlpha => out := SlashWordTurn(s, i); return;
        case DateDigitSlash => out := SlashTurn(s, i); return;
        case DateDigitColon => out := ColonTurn(s, i); return;
        case _ => return Leave(i);
      }
    }

    /** After a first colon. */
    method ColonTurn(s: string, i: nat) returns (out: Turn)
      requires Valid(s) && DateAt(View(), s, i) && p.stateDate.DateDigitColon?
      modifies this`p, this`layout, this`format
      ensures Valid(s) && Does(OnDigitColon(old(View()), preferMonthFirst, s, i), out, s)
    {
      hide Render, Write, DateFlowInv, Either;
      var r := s[i];
      if r == ' ' {
        if p.yearlen == 0 {
          YearThenTime(i);
        } else {
          p := p.(stateTime := TimeStart);
          if p.daylen == 0 {
            p := p.(daylen := i - p.dayi);
            SetDay();
          }
        }
        return Leave(i);
      } else if r == ':' {
        if p.yearlen > 0 {
          if p.molen == 0 {
            p := p.(molen := i - p.moi);
            SetMonth();
            p := p.(dayi := i + 1);
          }
        } else if preferMonthFirst {
          SecondPart(i);
        }
      }
      return Onward(i + 1);
    }

    /** The year ends where the time begins. */
    method YearThenTime(i: int)
      requires format == Render(layout, input)
      modifies this`p, this`layout, this`format
      ensures format == Render(layout, input)
      ensures View() == if old(View()).yearlen == 0 then old(View()).(yearlen := i - old(View()).yeari, stateTime := TimeStart).SetYear()
                   else old(View()).(stateTime := TimeStart)
    {
      hide Render, Write;
      p := p.(stateTime := TimeStart);
      if p.yearlen == 0 {
        p := p.(yearlen := i - p.yeari);
        SetYear();
      }
    }

    /** The part before the second separator: the day, or the month if the day comes first. */
    method SecondPart(i: int)
      requires format == Render(layout, input)
      modifies this`p, this`layout, this`format
      ensures format == Render(layout, input)
      ensures View() == if preferMonthFirst && old(View()).daylen == 0 then
                     old(View()).(daylen := i - old(View()).dayi, yeari := i + 1).SetDay()
                   else if !preferMonthFirst && old(View()).molen == 0 then
                     old(View()).(molen := i - old(View()).moi, yeari := i + 1).SetMonth()
                   else old(View())
    {
      hide Render, Write;
      if preferMonthFirst {
        if p.daylen == 0 {
          p := p.(daylen := i - p.dayi);
          SetDay();
          p := p.(yeari := i + 1);
        }
      } else if p.molen == 0 {
        p := p.(molen := i - p.moi);
        SetMonth();
        p := p.(yeari := i + 1);
      }
    }

    /** In the first word. */
    method WordTurn(s: string, i: nat) returns (out: Turn, ds: string)
      requires Valid(s) && DateAt(View(), s, i) && p.stateDate.DateAlpha?
      modifies this`p, this`layout, this`format
      ensures out.Answer? ==> ds == s
      ensures (out.Over? || Valid(ds)) && Does(WordsStep(old(View()), s, i), out, ds)
    {
      hide Render, Write, DateFlowInv, IsMonthFull, IsDay;
      var r := s[i];
      ds := s;
      match r {
        case ' ' =>
          var word := ToLower(s[..i]);
          if i > 3 {
            if IsMonthFull(word) {
              p := p.(fullMonth := word, stateDate := if |s[i..]| < 10 then DateAlphaWsMonth else DateAlphaWsMore);
              p := p.(dayi := i + 1);
            }
          } else {
            if IsDay(word) { return Over(s[i + 1..], false), ds; }
            p := p.(stateDate := DateAlphaWs);
          }
        case ',' =>
          if i == 3 {
            p := p.(stateDate := DateWeekdayAbbrevComma);
            Set(0, "Mon");
          } else {
            p := p.(stateDate := DateWeekdayComma, skip := i + 2);
            return Onward(i + 2), ds;
          }
        case '.' =>
          if i == 3 {
            p := p.(stateDate := DateAlphaPeriodWsDigit, molen := i);
            Set(0, "Jan");
          } else if i == 4 {
            ds := ds[..i - 1] + ds[i..];
            return Over(ds, true), ds;
          } else {
            return Answer(false, Unknown), ds;
          }
        case _ =>
      }
      return Onward(i + 1), ds;
    }

    /** In the day after a short month name. */
    method DayTurn(s: string, i: nat) returns (out: Turn)
      requires Valid(s) && DateAt(View(), s, i) && p.stateDate.DateAlphaWsDigit?
      modifies this`p, this`layout, this`format
      ensures Valid(s) && Does(OnAlphaWsDigit(old(View()), s, i), out, s)
    {
      hide Render, Write, DateFlowInv;
      var r := s[i];
      if r == ',' {
        p := p.(daylen := i - p.dayi);
        SetDay();
        p := p.(stateDate := DateAlphaWsDigitMore);
      } else if r == ' ' {
        p := p.(daylen := i - p.dayi);
        SetDay();
        p := p.(yeari := i + 1, stateDate := DateAlphaWsDigitYearmaybe, stateTime := TimeStart);
      } else if IsLetter(r) {
        p := p.(stateDate := DateAlphaWsMonthSuffix);
        return Onward(i);
      }
      return Onward(i + 1);
    }

    /** After a word and a space. */
    method WordThenTurn(s: string, i: nat) returns (out: Turn)
      requires Valid(s) && DateAt(View(), s, i) && p.stateDate.DateAlphaWs?
      modifies this`p, this`layout, this`format
      ensures Valid(s) && Does(OnAlphaWs(old(View()), s, i), out, s)
    {
      hide Render, Write, DateFlowInv;
      var r := s[i];
      if IsLetter(r) {
        Set(0, "Mon");
        p := p.(stateDate := DateAlphaWsAlpha);
        Set(i, "Jan");
      } else if IsDigit(r) {
        Set(0, "Jan");
        p := p.(stateDate := DateAlphaWsDigit, dayi := i);
      }
      return Onward(i + 1);
    }

    /** At the year after a month and a day. */
    method YearTurn(s: string, i: nat) returns (out: Turn)
      requires Valid(s) && DateAt(View(), s, i) && p.stateDate.DateAlphaWsDigitMoreWs?
      modifies this`p, this`layout, this`format
      ensures Valid(s) && Does(OnAlphaWsDigitMoreWs(old(View()), s, i), out, s)
    {
      hide Render, Write, DateFlowInv;
      var r := s[i];
      if r == '\'' {
        p := p.(yeari := i + 1);
      } else if r == ' ' || r == ',' {
        p := p.(stateDate := DateAlphaWsDigitMoreWsYear, yearlen := i - p.yeari);
        SetYear();
        p := p.(stateTime := TimeStart);
        return Leave(i);
      }
      return Onward(i + 1);
    }

    /** Dates that start with a word. */
    method WordsTurn(s: string, i: nat) returns (out: Turn)
      requires Valid(s) && DateAt(View(), s, i) && !p.stateDate.DateAlpha?
      modifies this`p, this`layout, this`format
      ensures Valid(s) && Does(WordsStep(old(View()), s, i), out, s)
    {
      hide Render, Write, DateFlowInv, Either, OnAlphaWs, OnAlphaWsDigit, OnAlphaWsDigitMoreWs;
      var r := s[i];
      match p.stateDate {
        case DateAlphaWs => out := WordThenTurn(s, i); return;
        case DateAlphaWsDigit => out := DayTurn(s, i); return;
        case DateAlphaWsDigitYearmaybe =>
          if r == ':' {
            p := p.(stateDate := DateAlphaWsDigit, yeari := 0);
            return Leave(i - 3);
          } else if r == ' ' {
            p := p.(yearlen := i - p.yeari);
            SetYear();
            return Leave(i);
          }
        case DateAlphaWsDigitMore =>
          if r == ' ' { p := p.(yeari := i + 1, stateDate := DateAlphaWsDigitMoreWs); }
        case DateAlphaWsDigitMoreWs => out := YearTurn(s, i); return;
        case DateAlphaPeriodWsDigit =>
          if IsDigit(r) {
            p := p.(stateDate := DateAlphaWsDigit, dayi := i);
          } else if r != ' ' {
            return Answer(true, Unknown);
          }
        case _ => return Leave(i);
      }
      return Onward(i + 1);
    }

    /** In the day after a full month name, with more to come. */
    method MoreTurn(s: string, i: nat) returns (out: Turn)
      requires Valid(s) && DateAt(View(), s, i) && p.stateDate.DateAlphaWsMore?
      modifies this`p, this`layout, this`format
      ensures Valid(s) && Does(OnAlphaWsMore(old(View()), s, i), out, s)
    {
      hide Render, Write, DateFlowInv;
      var r := s[i];
      if r == ',' {
        if NextIs(datestr, i, ' ') {
          p := p.(daylen := i - p.dayi);
          SetDay();
          p := p.(yeari := i + 2, stateDate := DateAlphaWsMonthMore);
          return Onward(i + 2);
        }
      } else if r == ' ' {
        p := p.(daylen := i - p.dayi);
        SetDay();
        p := p.(yeari := i + 1, stateDate := DateAlphaWsMonthMore);
      } else if IsLetter(r) {
        p := p.(daylen := i - p.dayi);
        SetDay();
        p := p.(stateDate := DateAlphaWsMonthSuffix);
        return Onward(i);
      }
      return Onward(i + 1);
    }

    /** A full month name, or a day suffix. */
    method MonthsTurn(s: string, i: nat) returns (out: Turn)
      requires Valid(s) && DateAt(View(), s, i)
      modifies this`p, this`layout, this`format
      ensures Valid(s) && Does(MonthsStep(old(View()), s, i), out, s)
    {
      hide Render, Write, DateFlowInv, OnAlphaWsMore;
      var r := s[i];
      if p.stateDate.DateAlphaWsMonth? {
        if r == ' ' || r == ',' {
          if p.daylen == 0 {
            p := p.(daylen := i - p.dayi);
            SetDay();
          }
        } else if r in "sSrRtTnN" {
          p := p.(stateDate := DateAlphaWsMonthSuffix);
          return Onward(i);
        } else if p.daylen > 0 && p.yeari == 0 {
          p := p.(yeari := i);
        }
      } else if p.stateDate.DateAlphaWsMonthMore? {
        if r == ',' || r == ' ' {
          p := p.(yearlen := i - p.yeari);
          SetYear();
          p := p.(stateTime := TimeStart);
          return Leave(if r == ',' then i + 1 else i);
        }
      } else if p.stateDate.DateAlphaWsMonthSuffix? {
        if SuffixAt(datestr, r, i) && |s| > i + 2 { return Over(datestr[..i] + datestr[i + 2..], true); }
      } else if p.stateDate.DateAlphaWsMore? {
        out := MoreTurn(s, i);
        return;
      } else {
        return Leave(i);
      }
      return Onward(i + 1);
    }

    /** After a weekday and a comma. */
    method WeekdayTurn(s: string, i: nat) returns (out: Turn)
      requires Valid(s) && DateAt(View(), s, i) && p.stateDate.DateWeekdayComma?
      modifies this`p, this`layout, this`format
      ensures Valid(s) && Does(OnWeekdayComma(old(View()), s, i), out, s)
    {
      hide Render, Write, DateFlowInv;
      if p.dayi == 0 { p := p.(dayi := i); }
      if s[i] == ' ' || s[i] == '-' {
        if p.moi == 0 {
          p := p.(moi := i + 1, daylen := i - p.dayi);
          SetDay();
        } else if p.yeari == 0 {
          p := p.(yeari := i + 1, molen := i - p.moi);
          Set(p.moi, "Jan");
        } else {
          p := p.(stateTime := TimeStart);
          return Leave(i);
        }
      }
      return Onward(i + 1);
    }

    /** After a short weekday and a comma. */
    method WeekdayAbbrevTurn(s: string, i: nat) returns (out: Turn)
      requires Valid(s) && DateAt(View(), s, i) && p.stateDate.DateWeekdayAbbrevComma?
      modifies this`p, this`layout, this`format
      ensures Valid(s) && Does(OnWeekdayAbbrevComma(old(View()), s, i), out, s)
    {
      hide Render, Write, DateFlowInv;
      if s[i] == ' ' || s[i] == '-' {
        if p.dayi == 0 {
          p := p.(dayi := i + 1);
        } else if p.moi == 0 {
          p := p.(daylen := i - p.dayi);
          SetDay();
          p := p.(moi := i + 1);
        } else if p.yeari == 0 {
          p := p.(molen := i - p.moi);
          Set(p.moi, "Jan");
          p := p.(yeari := i + 1);
        } else {
          p := p.(yearlen := i - p.yeari);
          SetYear();
          p := p.(stateTime := TimeStart);
          return Leave(i);
        }
      }
      return Onward(i + 1);
    }

    /** One turn of the date loop. */
    method DateTurn(s: string, i: nat) returns (out: Turn, ds: string)
      requires Valid(s) && DateAt(View(), s, i)
      modifies this`p, this`layout, this`format
      ensures out.Answer? ==> ds == s
      ensures (out.Over? || Valid(ds)) && Does(DateStep(old(View()), preferMonthFirst, s, i), out, ds)
    {
      hide Render, Write, DateFlowInv, DateAt, DateInv;
      hide DigitsStep, DashesStep, DayDashesStep, SlashesStep, WordsStep, MonthsStep, OnWeekdayComma, OnWeekdayAbbrevComma;
      ds := s;
      match p.stateDate {
        case DateStart => out := StartTurn(s, i);
        case DateDigit => out := DigitTurn(s, i);
        case DateDigitSt | DateDigitWs | DateDigitWsMoYear | DateDigitWsMolong | DateDigitDot | DateDigitDotDot =>
          out := DigitsTurn(s, i);
        case DateYearDash | DateYearDashDash | DateYearDashDashT | DateYearDashDashOffset | DateYearDashAlphaDash =>
          out := DashesTurn(s, i);
        case DateDigitDash | DateDigitDashAlpha | DateDigitDashAlphaDash => out := DayDashesTurn(s, i);
        case DateDigitYearSlash | DateDigitSlashAlpha | DateDigitSlash | DateDigitColon => out := SlashesTurn(s, i);
        case DateAlpha => out, ds := WordTurn(s, i);
        case DateAlphaWs | DateAlphaWsDigit | DateAlphaWsDigitYearmaybe
           | DateAlphaWsDigitMore | DateAlphaWsDigitMoreWs | DateAlphaPeriodWsDigit => out := WordsTurn(s, i);
        case DateAlphaWsMonth | DateAlphaWsMonthMore | DateAlphaWsMonthSuffix | DateAlphaWsMore =>
          out := MonthsTurn(s, i);
        case DateWeekdayComma => out := WeekdayTurn(s, i);
        case DateWeekdayAbbrevComma => out := WeekdayAbbrevTurn(s, i);
        case DateYearDashDashWs | DateAlphaWsDigitMoreWsYear | DateAlphaWsAlpha => out := Leave(i);
      }
    }

    method StartTurn(s: string, i: nat) returns (out: Turn)
      requires Valid(s) && DateAt(View(), s, i) && p.stateDate.DateStart?
      modifies this`p, this`layout, this`format
      ensures Valid(s) && Does(OnStart(old(View()), s, i), out, s)
    {
      hide Render, DateFlowInv;
      var r := s[i];
      if IsDigit(r) {
        p := p.(stateDate := DateDigit);
      } else if IsLetter(r) {
        p := p.(stateDate := DateAlpha);
      } else {
        return Answer(false, Unknown);
      }
      return Onward(i + 1);
    }

    // -------------------------------------------------------------- turns of the time loop

    /** A sign: the offset starts. */
    method SignTurn(s: string, i: nat) returns (out: Turn)
      requires Valid(s) && TimeAt(View(), s, i) && p.stateTime.TimeStart?
      modifies this`p, this`layout, this`format
      ensures Valid(s) && Does(OnTimeSign(old(View()), s, i), out, s)
    {
      hide Render, TimeFlowInv;
      p := p.(stateTime := TimeOffset);
      if p.seci == 0 {
        p := p.(minlen := i - p.mini);
      } else {
        if p.seclen == 0 { p := p.(seclen := i - p.seci); }
        if p.msi > 0 && p.mslen == 0 { p := p.(mslen := i - p.msi); }
      }
      p := p.(offseti := i);
      return Onward(i + 1);
    }

    /** am or pm. */
    method HalfTurn(s: string, i: nat) returns (out: Turn)
      requires Valid(s) && TimeAt(View(), s, i) && p.stateTime.TimeStart?
      modifies this`p, this`layout, this`format
      ensures Valid(s) && Does(OnTimeHalf(old(View()), s, i), out, s)
    {
      hide Render, Write, TimeFlowInv;
      var half := HalfMark(datestr, s[i], i);
      if half != "" {
        CoalesceTime(i);
        Set(i, half);
      }
      return Onward(i + 1);
    }

    /** The word at, or half of a day mark. */
    method ATurn(s: string, i: nat) returns (out: Turn)
      requires Valid(s) && TimeAt(View(), s, i) && p.stateTime.TimeStart?
      modifies this`p, this`layout, this`format
      ensures Valid(s) && Does(OnTimeA(old(View()), s, i), out, s)
    {
      hide Render, Write, TimeFlowInv, OnTimeHalf;
      if NextIs(datestr, i, 't') || NextIs(datestr, i, 'T') {
        if NextIs(datestr, i + 1, ' ') {
          p := p.(houri := 0);
          return Onward(i + 3);
        }
        return Onward(i + 2);
      }
      out := HalfTurn(s, i);
    }

    /** A colon.  The third one is made a dot, in the string too. */
    method TimeColonTurn(s: string, i: nat) returns (out: Turn, ds: string)
      requires Valid(s) && TimeAt(View(), s, i) && p.stateTime.TimeStart? && s[i] == ':'
      modifies this`p, this`layout, this`format, this`datestr
      ensures Valid(ds) && Does(OnTimeColon(old(View()), s, i), out, ds)
    {
      hide Render, Write, TimeFlowInv;
      ds := s;
      if p.mini == 0 {
        p := p.(mini := i + 1, hourlen := i - p.houri);
      } else if p.seci == 0 {
        p := p.(seci := i + 1, minlen := i - p.mini);
      } else if p.seci > 0 {
        p := p.(seclen := i - p.seci);
        Set(p.seci, "05");
        p := p.(msi := i + 1);
        Set(i, ".");
        ds := ds[..i] + "." + ds[i + 1..];
        datestr := ds;
        assert ds == s[i := '.'];
      }
      return Onward(i + 1), ds;
    }

    /** Z: the location is UTC from now on. */
    method ZuluTurn(s: string, i: nat) returns (out: Turn)
      requires Valid(s) && TimeAt(View(), s, i) && p.stateTime.TimeStart?
      modifies this`p, this`layout, this`format, this`loc
      ensures Valid(s) && Does(OnTimeZulu(old(View()), s, i), out, s)
    {
      hide Render, TimeFlowInv;
      p := p.(stateTime := TimeZ, zulu := true);
      p := if p.seci == 0 then p.(minlen := i - p.mini) else p.(seclen := i - p.seci);
      loc := UTC;
      return Onward(i + 1);
    }

    method SpaceTurn(s: string, i: nat) returns (out: Turn)
      requires Valid(s) && TimeAt(View(), s, i) && p.stateTime.TimeStart?
      modifies this`p, this`layout, this`format
      ensures Valid(s) && Does(OnTimeSpace(old(View()), s, i), out, s)
    {
      hide Render, Write, TimeFlowInv;
      CoalesceTime(i);
      p := p.(stateTime := TimeWs);
      return Onward(i + 1);
    }

    /** Reading hours, minutes and seconds. */
    method TimeStartTurn(s: string, i: nat) returns (out: Turn, ds: string)
      requires Valid(s) && TimeAt(View(), s, i) && p.stateTime.TimeStart?
      modifies this`p, this`layout, this`format, this`datestr, this`loc
      ensures Valid(ds) && Does(OnTimeStart(old(View()), s, i), out, ds)
    {
      hide Render, Write, TimeFlowInv, OnTimeSign, OnTimeA, OnTimeHalf, OnTimeColon, OnTimeZulu, OnTimeSpace;
      var r := s[i];
      ds := s;
      if p.houri == 0 { p := p.(houri := i); }
      out := Onward(i + 1);
      match r {
        case ',' => out := Over(datestr[i := '.'], true);
        case '-' | '+' => out := SignTurn(s, i);
        case '.' => p := p.(stateTime := TimePeriod, seclen := i - p.seci, msi := i + 1);
        case 'Z' => out := ZuluTurn(s, i);
        case 'a' | 'A' => out := ATurn(s, i);
        case 'p' | 'P' => out := HalfTurn(s, i);
        case ' ' => out := SpaceTurn(s, i);
        case ':' => out, ds := TimeColonTurn(s, i);
        case _ =>
      }
    }

    /** A zone abbreviation of three or four letters is written over. */
    method SetZone(i: int)
      requires format == Render(layout, input)
      modifies this`p, this`layout, this`format
      ensures format == Render(layout, input) && View() == ZoneName(old(View()), i)
      ensures View().dlen == old(View()).dlen && p.zulu == old(p.zulu)
    {
      hide Render, Write;
      p := p.(tzlen := i - p.tzi);
      if p.tzlen == 4 { Set(p.tzi, " MST"); } else if p.tzlen == 3 { Set(p.tzi, "MST"); }
    }

    /** A year after the time. */
    method SetTrailingYear(i: int)
      requires format == Render(layout, input)
      modifies this`p, this`layout, this`format
      ensures format == Render(layout, input) && View() == TrailingYear(old(View()), i)
      ensures View().dlen == old(View()).dlen && p.zulu == old(p.zulu)
    {
      hide Render, Write;
      p := p.(yearlen := i - p.yeari + 1);
      if p.yearlen == 4 { SetYear(); }
    }

    /** A space and what may be a zone name. */
    method AbbreviationTurn(s: string, i: nat) returns (out: Turn)
      requires Valid(s) && TimeAt(View(), s, i) && !p.stateTime.TimeStart?
      modifies this`p, this`layout, this`format
      ensures Valid(s) && Does(AbbreviationStep(old(View()), s, i), out, s)
    {
      hide Render, Write, TimeFlowInv, ZoneName, Either, TimeInv;
      var r := s[i];
      out := Onward(i + 1);
      match p.stateTime {
        case TimeWs =>
          if r == 'A' || r == 'P' {
            p := p.(tzi := i, stateTime := TimeWsAMPMMaybe);
          } else if r == '+' || r == '-' {
            p := p.(offseti := i, stateTime := TimeWsOffset);
          } else if IsLetter(r) {
            p := p.(tzi := i, stateTime := TimeWsAlpha);
          } else if IsDigit(r) {
            p := p.(stateTime := TimeWsYear, yeari := i);
          }
        case TimeWsAlpha =>
          if r == '+' || r == '-' {
            p := p.(stateTime := TimeWsAlphaZoneOffset, offseti := i);
            SetZone(i);
          } else if r == ' ' {
            p := p.(stateTime := TimeWsAlphaWs, yeari := i + 1);
            SetZone(i);
          }
        case TimeWsAMPMMaybe =>
          if r == 'M' {
            p := p.(stateTime := TimeWsAMPM);
            Set(i - 1, "PM");
            SetHour("03", "3");
          } else {
            p := p.(stateTime := TimeWsAlpha);
          }
        case _ =>
      }
    }

    /** After a zone name, an offset or Z. */
    method NamedTurn(s: string, i: nat) returns (out: Turn)
      requires Valid(s) && TimeAt(View(), s, i) && !p.stateTime.TimeStart?
      modifies this`p, this`layout, this`format
      ensures Valid(s) && Does(NamedStep(old(View()), s, i), out, s)
    {
      hide Render, Write, TimeFlowInv, TrailingYear, TimeInv;
      var r := s[i];
      out := Onward(i + 1);
      match p.stateTime {
        case TimeWsAlphaZoneOffset =>
          if r == ' ' {
            Set(p.offseti, "-0700");
            if p.yeari == 0 { p := p.(yeari := i + 1); }
            p := p.(stateTime := TimeWsAlphaZoneOffsetWs);
          }
        case TimeWsAlphaZoneOffsetWs =>
          p := if IsDigit(r) then p.(stateTime := TimeWsAlphaZoneOffsetWsYear)
               else p.(extra := i - 1, stateTime := TimeWsAlphaZoneOffsetWsExtra);
        case TimeWsAlphaZoneOffsetWsYear =>
          if IsDigit(r) { SetTrailingYear(i); }
        case TimeOffset =>
          if r == ':' { p := p.(stateTime := TimeOffsetColon); }
        case TimeZ =>
          if IsDigit(r) { p := p.(stateTime := TimeZDigit); }
        case _ =>
      }
    }

    /** What follows an offset and a space: a year, a zone, or something to cut off. */
    method AfterOffset(s: string, i: nat)
      requires Valid(s) && TimeAt(View(), s, i) && p.stateTime.TimeWsOffsetWs?
      modifies this`p, this`layout, this`format, this`datestr
      ensures Valid(s) && Does(OnTimeWsOffsetWs(old(View()), s, i), Onward(i + 1), s)
    {
      hide Render, Write, TimeFlowInv, TrailingYear;
      var r := s[i];
      if r == '=' {
        if s[i - 1] == 'm' {
          p := p.(extra := i - 2);
          TrimExtra(s);
        }
      } else if r == '+' || r == '-' || r == '(' {
        p := p.(extra := i - 1, stateTime := TimeWsOffset);
        TrimExtra(s);
      } else if IsDigit(r) {
        SetTrailingYear(i);
      } else if IsLetter(r) && p.tzi == 0 {
        p := p.(tzi := i);
      }
    }

    /** After a space and an offset. */
    method OffsetTurn(s: string, i: nat) returns (out: Turn)
      requires Valid(s) && TimeAt(View(), s, i) && !p.stateTime.TimeStart?
      modifies this`p, this`layout, this`format, this`datestr
      ensures Valid(s) && Does(OffsetStep(old(View()), s, i), out, s)
    {
      hide Render, Write, TimeFlowInv, OnTimeWsOffsetWs;
      var r := s[i];
      out := Onward(i + 1);
      match p.stateTime {
        case TimeWsOffset =>
          if r == ':' {
            p := p.(stateTime := TimeWsOffsetColon);
          } else if r == ' ' {
            Set(p.offseti, "-0700");
            p := p.(yeari := i + 1, stateTime := TimeWsOffsetWs);
          }
        case TimeWsOffsetWs => AfterOffset(s, i);
        case TimeWsOffsetColon =>
          if IsLetter(r) {
            p := p.(stateTime := TimeWsOffsetColonAlpha);
            return Leave(i);
          }
        case _ =>
      }
    }

    /** What follows a fraction and a space. */
    method AfterFraction(s: string, i: nat) returns (out: Turn)
      requires Valid(s) && TimeAt(View(), s, i) && p.stateTime.TimePeriodWs?
      modifies this`p, this`layout, this`format
      ensures Valid(s) && Does(OnTimePeriodWs(old(View()), s, i), out, s)
    {
      hide Render, TimeFlowInv;
      var r := s[i];
      if p.offseti == 0 { p := p.(offseti := i); }
      if r == '+' || r == '-' {
        p := p.(mslen := i - p.msi - 1, stateTime := TimePeriodWsOffset);
      } else if IsLetter(r) {
        p := p.(stateTime := TimePeriodWsOffsetWsAlpha);
        return Leave(i);
      }
      return Onward(i + 1);
    }

    /** A fraction and what follows. */
    method PeriodTurn(s: string, i: nat) returns (out: Turn)
      requires Valid(s) && TimeAt(View(), s, i) && !p.stateTime.TimeStart?
      modifies this`p, this`layout, this`format
      ensures Valid(s) && Does(PeriodStep(old(View()), s, i), out, s)
    {
      hide Render, Write, TimeFlowInv, OnTimePeriodWs;
      var r := s[i];
      out := Onward(i + 1);
      if p.stateTime.TimePeriod? {
        if r == ' ' {
          p := p.(mslen := i - p.msi, stateTime := TimePeriodWs);
        } else if r == '+' || r == '-' {
          p := p.(mslen := i - p.msi, offseti := i, stateTime := TimePeriodOffset);
        } else if IsLetter(r) {
          p := p.(mslen := i - p.msi, stateTime := TimePeriodWsAlpha);
        }
      } else if p.stateTime.TimePeriodOffset? {
        if r == ':' { p := p.(stateTime := TimePeriodOffsetColon); }
      } else if p.stateTime.TimePeriodOffsetColon? {
        if r == ' ' {
          Set(p.offseti, "-07:00");
          p := p.(stateTime := TimePeriodOffsetColonWs, tzi := i + 1);
        }
      } else if p.stateTime.TimePeriodWs? {
        out := AfterFraction(s, i);
      }
    }

    /** After a fraction, a space and an offset. */
    method PeriodOffsetTurn(s: string, i: nat) returns (out: Turn)
      requires Valid(s) && TimeAt(View(), s, i) && !p.stateTime.TimeStart?
      modifies this`p, this`layout, this`format, this`datestr
      ensures Valid(s) && Does(PeriodOffsetStep(old(View()), s, i), out, s)
    {
      hide Render, Write, TimeFlowInv;
      var r := s[i];
      out := Onward(i + 1);
      match p.stateTime {
        case TimePeriodWsOffset =>
          if r == ':' {
            p := p.(stateTime := TimePeriodWsOffsetColon);
          } else if r == ' ' {
            Set(p.offseti, "-0700");
          } else if r == '+' || r == '-' {
            p := p.(extra := i - 1);
            TrimExtra(s);
          } else if IsLetter(r) {
            p := p.(stateTime := TimePeriodWsOffsetWsAlpha);
          }
        case TimePeriodWsOffsetWsAlpha =>
          if r == '=' && s[i - 1] == 'm' {
            p := p.(extra := i - 2);
            TrimExtra(s);
          }
        case TimePeriodWsOffsetColon =>
          if r == ' ' {
            Set(p.offseti, "-07:00");
          } else if IsLetter(r) {
            p := p.(tzi := i, stateTime := TimePeriodWsOffsetColonAlpha);
          }
        case _ =>
      }
    }

    /** One turn of the time loop. */
    method TimeTurn(s: string, i: nat) returns (out: Turn, ds: string)
      requires Valid(s) && TimeAt(View(), s, i)
      modifies this`p, this`layout, this`format, this`datestr, this`loc
      ensures Valid(ds) && Does(TimeStep(old(View()), s, i), out, ds)
    {
      hide Render, TimeFlowInv, TimeAt, TimeInv;
      hide OnTimeStart, AbbreviationStep, NamedStep, OffsetStep, PeriodStep, PeriodOffsetStep;
      ds := s;
      match p.stateTime {
        case TimeStart => out, ds := TimeStartTurn(s, i);
        case TimeWs | TimeWsAlpha | TimeWsAMPMMaybe => out := AbbreviationTurn(s, i);
        case TimeWsAlphaZoneOffset | TimeWsAlphaZoneOffsetWs | TimeWsAlphaZoneOffsetWsYear | TimeOffset | TimeZ =>
          out := NamedTurn(s, i);
        case TimeWsOffset | TimeWsOffsetWs | TimeWsOffsetColon => out := OffsetTurn(s, i);
        case TimePeriod | TimePeriodOffset | TimePeriodOffsetColon | TimePeriodWs => out := PeriodTurn(s, i);
        case TimePeriodWsOffset | TimePeriodWsOffsetWsAlpha | TimePeriodWsOffsetColon => out := PeriodOffsetTurn(s, i);
        case _ => out := Onward(i + 1);
      }
    }

    // -------------------------------------------------------------- the loops

    /** The date loop.  The index moves back at day suffixes, and the loop still ends. */
    method DateLoop(s: string) returns (out: Turn, ds: string)
      requires Valid(s) && DateInv(View(), s, 0)
      modifies this`p, this`layout, this`format
      ensures out.Answer? ==> ds == s
      ensures (out.Over? || Valid(ds)) && Does(RunDate(old(View()), preferMonthFirst, s, 0), out, ds)
    {
      hide Render, DateInv, DateStep;
      ghost var all := RunDate(View(), preferMonthFirst, s, 0);
      var i := 0;
      while i < |s|
        invariant Valid(s) && DateInv(View(), s, i) && 0 <= i && RunDate(View(), preferMonthFirst, s, i) == all
        decreases if p.stateDate.DateAlphaWsMonthSuffix? then 0 else 1, |s| - i
      {
        out, ds := DateTurn(s, i);
        if !out.Onward? { return; }
        i := out.i;
      }
      return Leave(i), s;
    }

    /** The time loop, from index i; the string may get a dot for a colon on the way. */
    method TimeLoop(s: string, start: nat) returns (out: Turn, ds: string)
      requires Valid(s) && TimeInv(View(), s, start)
      modifies this`p, this`layout, this`format, this`datestr, this`loc
      ensures Valid(ds) && Does(RunTime(old(View()), s, start), out, ds)
    {
      hide Render, TimeInv, TimeStep;
      ghost var all := RunTime(View(), s, start);
      var i := start;
      ds := s;
      while i < |ds|
        invariant Valid(ds) && TimeInv(View(), ds, i) && 0 <= i && RunTime(View(), ds, i) == all
      {
        out, ds := TimeTurn(ds, i);
        if !out.Onward? { return; }
        i := out.i;
      }
      return Leave(i), ds;
    }

    // -------------------------------------------------------------- the ends

    /** The switch after the time loop. */
    method FinishTime(s: string, i: int) returns (out: Turn)
      requires Valid(s) && TimeEndInv(View(), s, i)
      modifies this`p, this`layout, this`format, this`datestr
      ensures Valid(s) && Does(TimeFinish(old(View()), s, i), out, s)
    {
      hide Render, Write, FinishInv, OffsetEndFinish, TailFinish, Roles, Either, EndsInOffset;
      if p.stateTime.TimeWsAlpha? {
        if |datestr| - p.tzi == 3 {
          Set(p.tzi, "MST");
        } else if |datestr| - p.tzi == 4 {
          Set(p.tzi, "MST");
          p := p.(extra := |datestr| - 1);
          TrimExtra(s);
        }
      } else if p.stateTime.TimeWsAlphaWs? || p.stateTime.TimeWsYear? {
        p := p.(yearlen := i - p.yeari);
        SetYear();
      } else if p.stateTime.TimeOffset? {
        var n := |datestr| - p.offseti;
        if n == 0 || n == 1 || n == 2 || n == 4 { return Answer(true, ZoneOffset); }
        if n == 3 { Set(p.offseti, "-07"); } else if n == 5 { Set(p.offseti, "-0700"); }
      } else if EndsInOffset(p.stateTime) {
        FinishOffset(s, i);
      } else {
        FinishTail(s, i);
      }
      return Leave(i);
    }

    /** An offset that runs to the end. */
    method FinishOffset(s: string, i: int)
      requires Valid(s) && TimeEndInv(View(), s, i) && EndsInOffset(p.stateTime)
      modifies this`p, this`layout, this`format
      ensures Valid(s) && Does(OffsetEndFinish(old(View()), s, i), Leave(i), s)
    {
      hide Render, Write, FinishInv, Roles;
      if p.stateTime.TimeWsAlphaZoneOffset? {
        Set(p.offseti, if i - p.offseti < 4 then "-07" else "-0700");
      } else if p.stateTime.TimeWsOffsetColon? || p.stateTime.TimeOffsetColon? || p.stateTime.TimePeriodOffsetColon? {
        Set(p.offseti, "-07:00");
      } else {
        Set(p.offseti, "-0700");
      }
    }

    /** A zone name, a fraction or a comment that runs to the end. */
    method FinishTail(s: string, i: int)
      requires Valid(s) && TimeEndInv(View(), s, i)
      modifies this`p, this`layout, this`format, this`datestr
      ensures Valid(s) && Does(TailFinish(old(View()), s, i), Leave(i), s)
    {
      hide Render, Write, FinishInv, Roles;
      match p.stateTime {
        case TimeWsAlphaZoneOffsetWsExtra => TrimExtra(s);
        case TimePeriod => p := p.(mslen := i - p.msi);
        case TimeWsOffsetWs =>
          if p.tzi > 0 {
            if |datestr| - p.tzi == 3 { Set(p.tzi, "MST"); } else if |datestr| - p.tzi == 4 { Set(p.tzi, "MST "); }
          }
        case TimePeriodWsOffsetColonAlpha =>
          p := p.(tzlen := i - p.tzi);
          if p.tzlen == 3 { Set(p.tzi, "MST"); } else if p.tzlen == 4 { Set(p.tzi, "MST "); }
        case _ =>
      }
    }

    method Replace(val: string)
      modifies this`layout, this`format
      ensures format == Render(layout, input) && View() == old(View()).(layout := Lit(val))
    {
      format := val;
      layout := Lit(val);
    }

    /** Nothing but digits: a date by its length, or a Unix time. */
    method FinishDigits(s: string) returns (keep: bool, err: Option<Error>)
      requires Valid(s) && Finishable(View()) && p.stateDate.DateDigit?
      modifies this`p, this`layout, this`format
      ensures var res := DigitFinish(old(View()), s);
              Valid(s) && err == res.err && keep == res.p.Some? && (keep ==> View() == res.p.value)
    {
      hide Render, Finishable, Ready, UnixStamp;
      if |s| == 14 {
        Replace("20060102150405");
      } else if |s| == 8 {
        Replace("20060102");
      } else if |s| == 4 {
        Replace("2006");
      } else if |s| < 4 {
        return false, Some(TooShort);
      } else {
        var stamp := UnixStamp(s);
        if stamp.None? { return false, Some(Unknown); }
        p := p.(t := stamp);
      }
      return true, None;
    }

    /** An offset right after a date with dashes. */
    method FinishDashedOffset()
      requires format == Render(layout, input)
      modifies this`layout, this`format
      ensures format == Render(layout, input)
      ensures var q := old(View());
              View() == q.(layout := Either(q.layout, q.offseti, q.dlen - q.offseti, 5, "-0700", 6, "-07:00"))
    {
      hide Render, Write;
      if |datestr| - p.offseti == 5 { Set(p.offseti, "-0700"); }
      else if |datestr| - p.offseti == 6 { Set(p.offseti, "-07:00"); }
    }

    /** An open span, of day, month or year, ends with the string. */
    method FinishSpan(s: string, i: int)
      requires Valid(s) && Finishable(View()) && EndsInSpan(p.stateDate)
      modifies this`p, this`layout, this`format
      ensures Valid(s) && Finish(old(View()), s, i) == Result(Some(View()), None)
    {
      hide Render, Write, Either, Finishable, Roles, Ready, DashYear;
      if p.stateDate.DateYearDashAlphaDash? {
        p := p.(daylen := i - p.dayi);
        SetDay();
      } else if p.stateDate.DateDigitDashAlphaDash? {
        SetDashYear(|s| - (p.moi + p.molen + 1));
      } else if p.stateDate.DateDigitDot? {
        p := p.(molen := i - p.moi);
        SetMonth();
      } else {
        p := p.(yearlen := i - p.yeari);
        SetYear();
      }
    }

    /** The last switch: what it answers, and the parser if it answers one. */
    method FinishDate(s: string, i: int) returns (keep: bool, err: Option<Error>)
      requires Valid(s) && Finishable(View())
      modifies this`p, this`layout, this`format
      ensures var res := Finish(old(View()), s, i);
              Valid(s) && err == res.err && keep == res.p.Some? && (keep ==> View() == res.p.value)
    {
      hide Render, Write, Finishable, Roles, Ready, DigitFinish, DashYear;
      if p.stateDate.DateDigit? {
        keep, err := FinishDigits(s);
        return;
      } else if p.stateDate.DateYearDashDashOffset? {
        FinishDashedOffset();
      } else if EndsInSpan(p.stateDate) {
        FinishSpan(s, i);
      } else if p.stateDate.DateDigitWsMolong? {
        Replace(if p.daylen == 2 then "02 January 2006" else "2 January 2006");
      } else {
        if !Accepting(p.stateDate) { return false, Some(Unknown); }
      }
      return true, None;
    }

    // -------------------------------------------------------------- asking the library

    /** January stands for whatever month was named. */
    method SetFullMonth(month: string)
      requires |month| <= |format|
      modifies this`format
      ensures format == if p.moi == 0 then "January" + old(format)[|month|..] else old(format)
    {
      if p.moi == 0 { format := "January" + format[|month|..]; }
    }

    /** This object is what parseTime answers. */
    ghost predicate Is(x: Parsed) reads this {
      && Valid(x.ds) && View() == x.p && input == x.input && home == x.loc && preferMonthFirst == x.preferMonthFirst
    }

    /** parse: the layout is completed, a skipped prefix dropped, and the library asked.  For
        an ambiguous date neither changes, so it can be asked again. */
    method Parse(lib: Lib, ghost x: Parsed) returns (r: LibResult)
      requires Is(x) && Sound(x)
      modifies this`format, this`datestr
      ensures r == DateParser.Parse(x, lib)
      ensures p.t.None? ==> format == ParsedLayout(x) && datestr == ParsedInput(x)
      ensures p.ambiguousMD || p.t.Some? ==> unchanged(this)
    {
      if p.t.Some? { return Time(p.t.value); }
      RenderFullMonth(x);
      if |p.fullMonth| > 0 { SetFullMonth(p.fullMonth); }
      if p.skip > 0 && |format| > p.skip {
        format := format[p.skip..];
        datestr := datestr[p.skip..];
      }
      assert x.ds[..x.p.dlen] == old(datestr);
      return lib(format, datestr, loc);
    }
  }

  lemma RenderFullMonth(x: Parsed)
    requires Sound(x)
    ensures var whole := Render(x.p.layout, x.input);
            && (x.p.fullMonth != "" ==> |x.p.fullMonth| <= |whole|)
            && Render(FullMonth(x.p), x.input)
               == (if x.p.fullMonth != "" && x.p.moi == 0 then "January" + whole[|x.p.fullMonth|..] else whole)
            && ParsedLayout(x) == Render(FullMonth(x.p), x.input)[Dropped(x.p)..]
            && ParsedInput(x) == x.ds[..x.p.dlen][Dropped(x.p)..]
  {}

  /** How one pass ends: with a parser or none, or with another string to parse. */
  datatype End = Ended(keep: bool, err: Option<Error>) | Redo(s: string, keepOptions: bool)

  ghost predicate Ends(r: Pass, q: LiveParser, end: End, ds: string) reads q {
    match r
    case Done(res, d) =>
      end == Ended(res.p.Some?, res.err) && ds == d && (res.p.Some? ==> q.View() == res.p.value && q.Valid(d))
    case Again(t, keep, d) => end == Redo(t, keep) && ds == d
  }

  /** One pass over the string: both loops and both switches. */
  method OnePass(s: string, loc: Loc, o: Options) returns (q: LiveParser, end: End, ds: string)
    ensures fresh(q) && q.input == s && q.home == loc && q.preferMonthFirst == o.preferMonthFirst
    ensures Ends(Scan(s, o.preferMonthFirst), q, end, ds)
  {
    hide Render, RunDate, ScanTime, Finish, Kind, Accepting;
    q := new LiveParser(s, loc, o);
    var turn;
    turn, ds := q.DateLoop(s);
    match turn
    case Onward(_) => assert false;
    case Over(t, keep) => end := Redo(t, keep);
    case Answer(keep, err) => end := Ended(keep, Some(err));
    case Leave(i) =>
      CoalesceDateInv(q.View(), s, i);
      q.CoalesceDate(i);
      var keep, err;
      if q.p.stateTime.TimeStart? {
        end, ds := TimePass(q, s, i);
      } else {
        keep, err := q.FinishDate(s, i);
        end := Ended(keep, err);
      }
  }

  /** Both switches, after the time loop. */
  method TimePassEnd(q: LiveParser, ds: string, j: int) returns (end: End)
    requires q.Valid(ds) && TimeEndInv(q.View(), ds, j)
    modifies q
    ensures Ends(EndTime(old(q.View()), ds, j), q, end, ds)
  {
    hide Render, TimeFinish, Finish, Write, Either, Zeros, Accepting, Commas;
    var turn := q.FinishTime(ds, j);
    if turn.Answer? {
      end := Ended(turn.keepParser, Some(turn.err));
    } else {
      q.CoalesceTime(turn.i);
      var keep, err := q.FinishDate(ds, turn.i);
      end := Ended(keep, err);
    }
  }

  /** The time half of a pass. */
  method TimePass(q: LiveParser, s: string, start: nat) returns (end: End, ds: string)
    requires q.Valid(s) && DateEndInv(q.View(), s, start) && q.p.stateTime.TimeStart?
    modifies q
    ensures Ends(ScanTime(old(q.View()), s, start), q, end, ds)
  {
    hide Render, RunTime, EndTime, Write, Either, Zeros, Accepting, Commas;
    ghost var before := q.p;
    var i := if start < |s| then start + 1 else start;
    ghost var from := i;
    while i < |s| && s[i] == ' '
      invariant from <= i && SkipSpaces(s, i) == SkipSpaces(s, from)
    {
      i := i + 1;
    }
    var turn;
    turn, ds := q.TimeLoop(s, i);
    match turn
    case Onward(_) => assert false;
    case Answer(_, _) => assert false;
    case Over(t, keep) => end := Redo(t, keep);
    case Leave(j) =>
      end := TimePassEnd(q, ds, j);
  }

  /** parseTime.  What is deferred replaces the parser, but its error is a variable of an
      inner scope. */
  method ParseTime(s: string, loc: Loc, o: Options, lib: Lib) returns (q: LiveParser?, err: Option<Error>)
    ensures var r := DateParser.ParseTime(s, loc, o, lib);
            && err == r.err && (q != null <==> r.x.Some?)
            && (q != null ==> fresh(q) && q.Is(r.x.value))
    decreases if o.retry then 1 else 0, |s|, Commas(s)
  {
    hide Scan, Render, Sound, DateParser.Parse, LiveParser.Valid, Commas;
    var first, end, ds := OnePass(s, loc, o);
    match end {
      case Ended(keep, e) =>
        err := e;
        q := if keep then first else null;
      case Redo(t, keepOptions) => q, err := ParseTime(t, loc, if keepOptions then o else DEFAULTS, lib);
    }
    if o.retry && q != null && q.p.ambiguousMD {
      var answer := q.Parse(lib, Straight(s, loc, o, lib).x.value);
      if answer == Failure(true) {
        var shadowed;
        q, shadowed := ParseTime(ds, Local, Options(!q.preferMonthFirst, false), lib);
      }
    }
  }
}

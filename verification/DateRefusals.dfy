// Strings that parseTime refuses, and with which error.
module DateRefusals {
  import opened DateText
  import opened DateParser
  import opened DateWalk
  import opened DateSpelling
  import opened DateClock
  import opened DateTail
  import opened DateStages
  import opened DateLayouts

  ghost predicate Refused(r: Outcome, e: Error) { r.err == Some(e) && r.x.None? }

  lemma RefusedByPass(s: string, loc: Loc, o: Options, lib: Lib, e: Error)
    requires Scan(s, o.preferMonthFirst) == Done(Result(None, Some(e)), s)
    ensures Refused(ParseTime(s, loc, o, lib), e)
  {
    hide Scan;
  }

  lemma ReturnsScan(s: string, pref: bool, w: Parser, i: nat, text: string, j: nat)
    requires DateStage(s, pref, w, i, text) && QuietAll(w.stateDate, s, i, j) && j < |s|
    requires DateInv(w, s, j) ==> DateTurn(w, pref, s, j) == Fail()
    ensures Scan(s, pref) == Done(Result(None, Some(Unknown)), s)
  {
    hide DateStep, DateTurn, Roles, Render;
    DatePasses(w, pref, s, i, j);
    DateStepTurns(w, pref, s, j);
  }

  /** A date starts with a digit or a letter. */
  lemma BadStart(s: string, loc: Loc, o: Options, lib: Lib)
    requires s == "" || (!IsDigit(s[0]) && !IsLetter(s[0]))
    ensures Refused(ParseTime(s, loc, o, lib), Unknown)
  {
    hide Scan;
    assert Scan(s, o.preferMonthFirst) == Done(Result(None, Some(Unknown)), s) by { StartScan(s, o.preferMonthFirst); }
    RefusedByPass(s, loc, o, lib, Unknown);
  }

  lemma StartScan(s: string, pref: bool)
    requires s == "" || (!IsDigit(s[0]) && !IsLetter(s[0]))
    ensures Scan(s, pref) == Done(Result(None, Some(Unknown)), s)
  {
    hide DateStep, ScanTime, Write, Either;
    if s != "" { DateStepTurns(NewParser(|s|), pref, s, 0); }
  }

  /** Behind a first number that is no year a dash must have a letter behind it; and no first
      number may have a comma behind it. */
  lemma BadNumber(n: string, c: char, rest: string, loc: Loc, o: Options, lib: Lib)
    requires Digits(n) && n != "" && (c == ',' || (c == '-' && |n| != 4 && rest != "" && !IsLetter(rest[0])))
    ensures Refused(ParseTime(n + [c] + rest, loc, o, lib), Unknown)
  {
    hide RunDate, DateStage, DateInv, Render, Write, Either, Roles, DateFlowInv, Scan;
    var s, pref := n + [c] + rest, o.preferMonthFirst;
    assert s[0..|n|] == n && s[|n|] == c && s[|n| + 1..] == rest;
    DigitBytes(s, 0, n);
    NumberBegins(s, pref, |n|);
    RenderFresh(s);
    var v := NewParser(|s|).(stateDate := DateDigit);
    if c == ',' {
      ReturnsScan(s, pref, v, |n|, s, |n|);
    } else {
      var u := v.(stateDate := DateDigitDash, part1Len := |n|);
      DateGoes(s, pref, v, |n|, s, |n|, u, s);
      assert s[|n| + 1] == s[|n| + 1..][0];
      ReturnsScan(s, pref, u, |n| + 1, s, |n| + 1);
    }
    RefusedByPass(s, loc, o, lib, Unknown);
  }

  /** Fewer than four digits are too short. */
  lemma FewDigits(s: string, loc: Loc, o: Options, lib: Lib)
    requires Digits(s) && 0 < |s| < 4
    ensures Refused(ParseTime(s, loc, o, lib), TooShort)
  {
    hide RunDate, DateStage, Dated, DateInv, DateEndInv, Render, Write, Roles, DateFlowInv, Scan;
    NumberBegins(s, o.preferMonthFirst, |s|);
    RenderFresh(s);
    var p := NewParser(|s|).(stateDate := DateDigit);
    assert p.CoalesceDate(|s|) == p;
    DateRunsOut(s, o.preferMonthFirst, p, |s|, s, s);
    DateAlone(s, o.preferMonthFirst, p, s);
    RefusedByPass(s, loc, o, lib, TooShort);
  }

  /** A word alone is no date; nor is one of five letters or more, or of two or less, with a
      point behind it. */
  lemma WordAlone(w: string, rest: string, loc: Loc, o: Options, lib: Lib)
    requires Letters(w) && w != "" && (rest == "" || (rest[0] == '.' && |w| != 3 && |w| != 4))
    ensures Refused(ParseTime(w + rest, loc, o, lib), Unknown)
  {
    hide RunDate, DateStage, Dated, DateInv, DateEndInv, Render, Write, Roles, DateFlowInv, Scan;
    var s, pref := w + rest, o.preferMonthFirst;
    assert s[0..|w|] == w;
    LetterBytes(s, 0, w);
    WordBegins(s, pref, |w|);
    RenderFresh(s);
    var p := NewParser(|s|).(stateDate := DateAlpha);
    if rest == "" {
      assert s == w && p.CoalesceDate(|s|) == p;
      DateRunsOut(s, pref, p, |s|, s, s);
      DateAlone(s, pref, p, s);
    } else {
      assert s[|w|] == '.';
      ReturnsScan(s, pref, p, |w|, s, |w|);
    }
    RefusedByPass(s, loc, o, lib, Unknown);
  }

  /** An offset right behind the clock has two digits or four: with none, one or three there is
      an error about the zone, and a parser comes with it. */
  lemma BadOffset(d: Date, j: string, at: string, c: Clock, sign: char, digits: string, loc: Loc, o: Options, lib: Lib)
    requires d.Valid() && d.Joins(j) && c.Valid() && (at == "" || (at == "at " && !d.NameDay?)) && !o.retry
    requires (sign == '+' || sign == '-') && Digits(digits) && |digits| in {0, 1, 3}
    ensures var r := ParseTime(d.Text() + j + at + c.Text() + ([sign] + digits), loc, o, lib);
            r.err == Some(ZoneOffset) && r.x.Some?
  {
    hide Scan, Marked, Before, Buffer, Date.Laid, Date.Valid, Date.Text, Date.Joins, Clock.Text, Clock.Laid, Tailed;
    var rest := [sign] + digits;
    var s, pre := d.Text() + j + at + c.Text() + rest, Buffer(d, o.preferMonthFirst) + j + at;
    var p := DateClockScan(d, j, at, c, rest, o.preferMonthFirst);
    var w := BadTail(p, s, c, pre, |pre| + |c.Text()|, sign, digits);
  }

  lemma BadTail(p: Parser, s: string, c: Clock, pre: string, e: nat, sign: char, digits: string) returns (w: Parser)
    requires Before(p, s, c, pre, e) && e <= |s| && s[e..] == [sign] + digits
    requires (sign == '+' || sign == '-') && Digits(digits) && |digits| in {0, 1, 3}
    ensures TimeInv(p, s, |pre|) && Tailed(p, s, |pre|) == Done(Result(Some(w), Some(ZoneOffset)), s)
  {
    hide Before, Clock.Text, Clock.Laid, RunTime, TimeInv, TimeEndInv, Render, Keeps, Colons, EndTime;
    var t := s[e..];
    assert s[e] == t[0] && s[e + 1..e + 1 + |digits|] == t[1..] == digits;
    DigitBytes(s, e + 1, digits);
    w := SignBehind(p, s, c, pre, e);
    TimeEnds(w, s, e + 1);
    OffsetRefused(w, s);
  }

  lemma OffsetRefused(w: Parser, s: string)
    requires TimeEndInv(w, s, |s|) && w.stateTime.TimeOffset? && w.dlen - w.offseti in {1, 2, 4}
    ensures EndTime(w, s, |s|) == Done(Result(Some(w), Some(ZoneOffset)), s)
  {
    hide Write, Either, Finish;
  }
}

// What the deferred retry does to a parse: it exchanges the month and the day, or, behind
// a weekday, only the location; and when its verdict can tell strings of one shape apart.
module DateSwap {
  import opened DateText
  import opened DateParser
  import opened DateAgree
  import opened DateRuns
  import opened DateRestart
  import opened DateShape
  import opened DatePreference
  import opened DateRetry

  /** parseTime with the retry off.  It asks the library nothing. */
  function Plain(s: string, loc: Loc, pref: bool): (r: Outcome)
    ensures r.x.Some? ==> Sound(r.x.value)
  {
    ParseTime(s, loc, Options(pref, false), (l, i, z) => Time(0))
  }

  lemma {:induction false} PlainAsksNothing(s: string, loc: Loc, pref: bool, lib: Lib)
    ensures ParseTime(s, loc, Options(pref, false), lib) == Plain(s, loc, pref)
    decreases |s|, Commas(s)
  {
    hide Scan, Commas, Sound;
    var a := Scan(s, pref);
    if a.Again? { PlainAsksNothing(a.s, loc, if a.keepOptions then pref else true, lib); }
  }

  /** Two plain parses of one string: the same success or error, the same strings, and
      parsers that differ at most in the date spans and the bytes written. */
  ghost predicate AlikeOutcome(a: Outcome, b: Outcome) {
    && a.err == b.err && a.x.Some? == b.x.Some?
    && (a.x.Some? ==> Alike(a.x.value.p, b.x.value.p) && a.x.value.ds == b.x.value.ds && a.x.value.input == b.x.value.input)
  }

  lemma {:induction false} PlainAlike(s: string, loc: Loc, loc': Loc, a: bool, b: bool)
    ensures AlikeOutcome(Plain(s, loc, a), Plain(s, loc', b))
    decreases |s|, Commas(s)
  {
    hide Scan, Commas, Sound, Alike;
    ScanAlike(s, a, b);
    var x := Scan(s, a);
    if x.Again? {
      PlainAlike(x.s, loc, loc', if x.keepOptions then a else true, if x.keepOptions then b else true);
    }
  }

  /** The location and preference a plain parse carries.  Behind a weekday the caller's
      preference is forgotten. */
  lemma {:induction false} PlainCarries(s: string, loc: Loc, pref: bool)
    ensures var r := Plain(s, loc, pref);
            r.x.Some? ==> r.x.value.loc == loc && r.x.value.preferMonthFirst == if Weekday(s) then true else pref
    decreases |s|, Commas(s)
  {
    hide Scan, Commas, Sound, Weekday;
    ScanHandsOn(s, pref);
    var a := Scan(s, pref);
    if a.Again? { PlainCarries(a.s, loc, if a.keepOptions then pref else true); }
  }

  /** A plain parse uses the location for nothing but to carry it. */
  lemma {:induction false} PlainMoves(s: string, loc: Loc, loc': Loc, pref: bool)
    ensures var a, b := Plain(s, loc, pref), Plain(s, loc', pref);
            b == if a.x.Some? then Outcome(Some(a.x.value.(loc := loc')), a.err) else a
    decreases |s|, Commas(s)
  {
    hide Scan, Commas, Sound;
    var a := Scan(s, pref);
    if a.Again? { PlainMoves(a.s, loc, loc', if a.keepOptions then pref else true); }
  }

  // ---------------------------------------------------------------- what the retry does

  /** The library rejects a plain parse for its month. */
  predicate Rejected(r: Outcome, lib: Lib)
    requires r.x.Some? ==> Sound(r.x.value)
  {
    r.x.Some? && r.x.value.p.ambiguousMD && Parse(r.x.value, lib) == Failure(true)
  }

  /** Behind a weekday the second parse drops its options too: month and day are never
      exchanged, and all the retry does is to put Local for the caller's location. */
  lemma RetryBehindWeekday(s: string, loc: Loc, pref: bool, lib: Lib)
    requires Weekday(s)
    ensures var a := Plain(s, loc, pref);
            ParseTime(s, loc, Options(pref, true), lib) ==
            if Rejected(a, lib) then Outcome(Some(a.x.value.(loc := Local)), a.err) else a
  {
    hide Scan, ParseTime, Parse, Sound, Weekday, Plain;
    ScanHandsOn(s, pref);
    ScanHandsOn(s, false);
    ScanHandsOn(s, true);
    var o := Options(pref, true);
    var a := Plain(s, loc, pref);
    Deferred(s, loc, o, lib);
    PlainIsStraight(s, loc, pref, lib);
    PlainIsStraight(s, loc, true, lib);
    PlainIsStraight(s, Local, false, lib);
    PlainIsStraight(s, Local, true, lib);
    PlainCarries(s, loc, pref);
    PlainMoves(s, loc, Local, true);
    PlainAsksNothing(s, Local, false, lib);
  }

  lemma PlainIsStraight(s: string, loc: Loc, pref: bool, lib: Lib)
    ensures Plain(s, loc, pref) == Straight(s, loc, Options(pref, false), lib)
    ensures Weekday(s) || Scan(s, pref).Done? ==> Plain(s, loc, pref) == Straight(s, loc, Options(pref, true), lib)
  {
    hide Scan, Sound, Weekday;
    PlainAsksNothing(s, loc, pref, lib);
    ScanHandsOn(s, pref);
  }

  /** A string that no weekday starts, read in one pass: what is rejected is parsed again
      with the preference exchanged, in Local. */
  lemma RetryOfOnePass(s: string, loc: Loc, pref: bool, lib: Lib)
    requires !Weekday(s) && Scan(s, pref).Done?
    ensures var a, d := Plain(s, loc, pref), Scan(s, pref).ds;
            ParseTime(s, loc, Options(pref, true), lib) ==
            if Rejected(a, lib) then Outcome(Plain(d, Local, !pref).x, a.err) else a
  {
    hide Scan, ParseTime, Parse, Sound, Weekday, Plain;
    var o := Options(pref, true);
    Deferred(s, loc, o, lib);
    PlainIsStraight(s, loc, pref, lib);
    PlainCarries(s, loc, pref);
    PlainAsksNothing(Scan(s, pref).ds, Local, !pref, lib);
  }

  predicate Word(s: string) { |s| > 0 && IsLetter(s[0]) && !Weekday(s) }

  /** Neither a weekday nor another word starts the string, and a comma in its time makes
      the parser start over. */
  predicate StartsOver(s: string, pref: bool) { Scan(s, pref).Again? && !Weekday(s) && !Word(s) }

  lemma {:induction false} WordIsPlain(s: string, loc: Loc, pref: bool, lib: Lib)
    requires Word(s)
    ensures var a := Plain(s, loc, pref);
            ParseTime(s, loc, Options(pref, true), lib) == a && !Rejected(a, lib)
    decreases |s|, Commas(s)
  {
    hide Scan, Parse, Sound, Weekday, Commas, Straight;
    var o := Options(pref, true);
    ScanHandsOn(s, pref);
    WordsAreNeverAmbiguous(s, loc, Options(pref, false), lib);
    PlainAsksNothing(s, loc, pref, lib);
    PlainIsStraight(s, loc, pref, lib);
    Deferred(s, loc, o, lib);
    WordStraight(s, loc, pref, lib);
    var a := Scan(s, pref);
    if a.Again? { WordIsPlain(a.s, loc, pref, lib); }
  }

  lemma WordStraight(s: string, loc: Loc, pref: bool, lib: Lib)
    requires Word(s)
    ensures var a, o := Scan(s, pref), Options(pref, true);
            if a.Again?
            then Straight(s, loc, o, lib) == ParseTime(a.s, loc, o, lib) && Word(a.s) && Plain(s, loc, pref) == Plain(a.s, loc, pref)
            else Straight(s, loc, o, lib) == Plain(s, loc, pref)
  {
    hide Scan, Sound, Weekday;
    ScanHandsOn(s, pref);
    PlainIsStraight(s, loc, pref, lib);
  }

  /** The string whose parse the first deferred function puts for a rejected one. */
  function SecondString(s: string, pref: bool): string {
    hide Scan;
    if StartsOver(s, pref) then Scan(s, pref).s else Scan(s, pref).ds
  }

  /** The parse it puts: with the other preference, in Local. */
  function Second(s: string, pref: bool): (r: Outcome)
    ensures r.x.Some? ==> Sound(r.x.value)
  {
    Plain(SecondString(s, pref), Local, !pref)
  }

  /** Where the parser starts over there are two deferred functions, and the outer one may find
      the month of the second parse out of range as well; it goes back to the caller's
      preference. */
  predicate TwiceRejected(s: string, pref: bool, lib: Lib) {
    StartsOver(s, pref) && Rejected(Second(s, pref), lib)
  }

  /** All the retry does. */
  lemma RetryIs(s: string, loc: Loc, pref: bool, lib: Lib)
    ensures var a, r := Plain(s, loc, pref), ParseTime(s, loc, Options(pref, true), lib);
            if !Rejected(a, lib) then r == a
            else if Weekday(s) then r == Outcome(Some(a.x.value.(loc := Local)), a.err)
            else && |s| > 0 && IsDigit(s[0])
                 && r == Outcome((if TwiceRejected(s, pref, lib) then Plain(Scan(s, pref).ds, Local, pref)
                                  else Second(s, pref)).x, a.err)
  {
    hide Scan, ParseTime, Parse, Sound, Weekday, Plain, Rejected;
    if Weekday(s) { RetryBehindWeekday(s, loc, pref, lib); }
    else if Word(s) { WordIsPlain(s, loc, pref, lib); }
    else if |s| == 0 || !IsDigit(s[0]) {
      NoStart(s, pref);
      RetryOfOnePass(s, loc, pref, lib);
      PlainIsStraight(s, loc, pref, lib);
      NothingRejected(Plain(s, loc, pref), lib);
    } else if Scan(s, pref).Again? {
      RetryStartedOver(s, loc, pref, lib);
    } else {
      RetryOfOnePass(s, loc, pref, lib);
    }
  }

  lemma NothingRejected(r: Outcome, lib: Lib)
    requires r.x.None?
    ensures !Rejected(r, lib)
  {}

  /** A digit date that starts over at a comma. */
  lemma RetryStartedOver(s: string, loc: Loc, pref: bool, lib: Lib)
    requires StartsOver(s, pref) && |s| > 0 && IsDigit(s[0])
    ensures var a, r := Plain(s, loc, pref), ParseTime(s, loc, Options(pref, true), lib);
            if !Rejected(a, lib) then r == a
            else if Rejected(Second(s, pref), lib) then r == Outcome(Plain(Scan(s, pref).ds, Local, pref).x, a.err)
            else r == Outcome(Second(s, pref).x, a.err)
  {
    hide Scan, ParseTime, Parse, Sound, Weekday, Plain;
    var o := Options(pref, true);
    var t := Scan(s, pref).s;
    ScanAfterComma(s, pref);
    NoDay(t, 0);
    RetryOfOnePass(t, loc, pref, lib);
    StartedOverPlain(s, loc, pref, lib);
    Deferred(s, loc, o, lib);
    PlainCarries(t, loc, pref);
    PlainCarries(SecondString(s, pref), Local, !pref);
    ScanLeaves(t, pref);
    PlainAsksNothing(Scan(s, pref).ds, Local, !pref, lib);
    PlainAsksNothing(Scan(s, pref).ds, Local, pref, lib);
  }

  lemma StartedOverPlain(s: string, loc: Loc, pref: bool, lib: Lib)
    requires Scan(s, pref).Again? && Scan(s, pref).keepOptions
    ensures Plain(s, loc, pref) == Plain(Scan(s, pref).s, loc, pref)
    ensures Straight(s, loc, Options(pref, true), lib) == ParseTime(Scan(s, pref).s, loc, Options(pref, true), lib)
  {
    hide Scan, Sound;
  }

  /** The preference the retry leaves. */
  function PreferenceLeft(s: string, loc: Loc, pref: bool, lib: Lib): bool {
    if Weekday(s) then true
    else if Rejected(Plain(s, loc, pref), lib) && !TwiceRejected(s, pref, lib) then !pref
    else pref
  }

  /** The passes over the string put no dot over a third colon. */
  predicate Untouched(s: string, pref: bool) {
    Scan(s, pref).ds == s
  }

  /** The retry keeps success and error.  It changes no string, no state and no time span,
      unless a third colon was made a dot; the location and the preference it leaves tell
      what it has done. */
  lemma RetryExchanges(s: string, loc: Loc, pref: bool, lib: Lib)
    ensures var a, r := Plain(s, loc, pref), ParseTime(s, loc, Options(pref, true), lib);
            && r.err == a.err && r.x.Some? == a.x.Some?
            && (Untouched(s, pref) ==> AlikeOutcome(a, r))
            && (r.x.Some? ==> r.x.value.loc == if Rejected(a, lib) then Local else loc)
            && (r.x.Some? ==> r.x.value.preferMonthFirst == PreferenceLeft(s, loc, pref, lib))
  {
    hide Scan, ParseTime, Parse, Sound, Weekday, Plain, Rejected;
    RetryIs(s, loc, pref, lib);
    RetryKeepsTheOutcome(s, loc, pref, lib);
    PlainAsksNothing(s, loc, pref, lib);
    PlainCarries(s, loc, pref);
    var a, d := Plain(s, loc, pref), Scan(s, pref).ds;
    if Rejected(a, lib) && !Weekday(s) {
      LeftAreDates(s, pref);
      PlainCarries(d, Local, pref);
      PlainCarries(SecondString(s, pref), Local, !pref);
      PlainAlike(s, loc, Local, pref, pref);
      SecondAlike(s, loc, pref);
    }
    SelfAlike(a);
  }

  lemma SelfAlike(a: Outcome)
    ensures AlikeOutcome(a, a)
    ensures a.x.Some? ==> AlikeOutcome(a, Outcome(Some(a.x.value.(loc := Local)), a.err))
  {}

  lemma LeftAreDates(s: string, pref: bool)
    requires !Weekday(s) && |s| > 0 && IsDigit(s[0])
    ensures !Weekday(Scan(s, pref).ds) && !Weekday(SecondString(s, pref))
  {
    hide Scan, Weekday;
    ScanLeaves(s, pref);
    if StartsOver(s, pref) {
      ScanAfterComma(s, pref);
      NoDay(Scan(s, pref).s, 0);
      ScanLeaves(Scan(s, pref).s, pref);
    }
  }

  lemma SecondAlike(s: string, loc: Loc, pref: bool)
    requires !Weekday(s) && |s| > 0 && IsDigit(s[0])
    ensures Untouched(s, pref) ==> AlikeOutcome(Plain(s, loc, pref), Second(s, pref))
  {
    hide Scan, Weekday, Plain, AlikeOutcome;
    PlainAlike(s, loc, Local, pref, !pref);
    if StartsOver(s, pref) {
      ScanAfterComma(s, pref);
      StartedOverPlain(s, loc, pref, (l, i, z) => Time(0));
      PlainAlike(Scan(s, pref).s, loc, Local, pref, !pref);
    }
  }

  // ---------------------------------------------------------------- one shape, two verdicts

  /** What the retry comes to: nothing; month and day exchanged; or only the location, and the
      string, replaced. */
  datatype Effect = Kept | Swapped | Moved

  function EffectOf(s: string, loc: Loc, pref: bool, lib: Lib): Effect {
    if !Rejected(Plain(s, loc, pref), lib) then Kept
    else if Weekday(s) then (if loc == Local then Kept else Moved)
    else if TwiceRejected(s, pref, lib) then (if loc == Local && Scan(s, pref).ds == s then Kept else Moved)
    else Swapped
  }

  lemma EffectIs(s: string, loc: Loc, pref: bool, lib: Lib)
    ensures var a, r := Plain(s, loc, pref), ParseTime(s, loc, Options(pref, true), lib);
            match EffectOf(s, loc, pref, lib)
            case Kept => r == a
            case Swapped => !Weekday(s) && |s| > 0 && IsDigit(s[0]) && r == Outcome(Second(s, pref).x, a.err)
            case Moved =>
              if Weekday(s) then a.x.Some? && r == Outcome(Some(a.x.value.(loc := Local)), a.err)
              else |s| > 0 && IsDigit(s[0]) && r == Outcome(Plain(Scan(s, pref).ds, Local, pref).x, a.err)
  {
    hide Scan, ParseTime, Parse, Sound, Weekday, Plain;
    RetryIs(s, loc, pref, lib);
    PlainMoves(s, loc, Local, pref);
    PlainCarries(s, loc, pref);
  }

  /** With the retry on, two strings of one shape come out alike exactly when the library's
      verdicts on the plain parse of each, and on the second if there are two, have the same
      effect. */
  lemma VerdictDecides(s: string, t: string, loc: Loc, pref: bool, lib: Lib)
    requires SameShape(s, t) && !StampAfterWeekdays(s)
    ensures var o := Options(pref, true);
            SameOutcome(ParseTime(s, loc, o, lib), ParseTime(t, loc, o, lib))
            <==> EffectOf(s, loc, pref, lib) == EffectOf(t, loc, pref, lib)
  {
    if EffectOf(s, loc, pref, lib) == EffectOf(t, loc, pref, lib) {
      SameEffect(s, t, loc, pref, lib);
    } else {
      OtherEffect(s, t, loc, pref, lib);
    }
  }

  lemma SameEffect(s: string, t: string, loc: Loc, pref: bool, lib: Lib)
    requires SameShape(s, t) && !StampAfterWeekdays(s) && EffectOf(s, loc, pref, lib) == EffectOf(t, loc, pref, lib)
    ensures var o := Options(pref, true); SameOutcome(ParseTime(s, loc, o, lib), ParseTime(t, loc, o, lib))
  {
    hide Scan, ParseTime, Parse, Sound, Weekday, Plain, Second, SameShape, StampAfterWeekdays, EffectOf;
    PlainAgrees(s, t, loc, pref);
    SameStart(s, t, pref);
    EffectIs(s, loc, pref, lib);
    EffectIs(t, loc, pref, lib);
    NoStampNext(s, pref);
    PlainAgrees(Scan(s, pref).ds, Scan(t, pref).ds, Local, pref);
    SecondAgrees(s, t, pref);
  }

  /** Another effect shows in the preference, in the location, or in a comma. */
  lemma OtherEffect(s: string, t: string, loc: Loc, pref: bool, lib: Lib)
    requires SameShape(s, t) && !StampAfterWeekdays(s) && EffectOf(s, loc, pref, lib) != EffectOf(t, loc, pref, lib)
    ensures var o := Options(pref, true); !SameOutcome(ParseTime(s, loc, o, lib), ParseTime(t, loc, o, lib))
  {
    hide Scan, ParseTime, Parse, Sound, Weekday, Plain, SameShape, StampAfterWeekdays;
    PlainAgrees(s, t, loc, pref);
    SameStart(s, t, pref);
    RetryExchanges(s, loc, pref, lib);
    RetryExchanges(t, loc, pref, lib);
    EffectIs(s, loc, pref, lib);
    EffectIs(t, loc, pref, lib);
    if StartsOver(s, pref) && loc == Local {
      BackHasComma(s, pref);
      BackHasComma(t, pref);
      CommasOfOutcome(ParseTime(s, loc, Options(pref, true), lib), ParseTime(t, loc, Options(pref, true), lib));
      CommasOfOutcome(Plain(s, loc, pref), Plain(t, loc, pref));
    }
  }

  /** Going back after a third colon was made a dot keeps the comma, which the plain parse
      has made a dot. */
  lemma BackHasComma(s: string, pref: bool)
    requires StartsOver(s, pref)
    ensures var a, c := Plain(s, Local, pref), Plain(Scan(s, pref).ds, Local, pref);
            a.x.Some? && c.x.Some? && Scan(s, pref).ds != s ==> Commas(c.x.value.input) > Commas(a.x.value.input)
  {
    hide Scan, Weekday, Commas, Sound;
    ScanHandsOn(s, pref);
    if |s| == 0 || !IsDigit(s[0]) {
      NoStart(s, pref);
      assert false;
    } else if Scan(s, pref).ds != s {
      ScanCommas(s, pref);
      ScanAgain(s, pref);
      ScanAfterComma(s, pref);
      StartedOverPlain(s, Local, pref, (l, i, z) => Time(0));
    }
  }

  lemma CommasOfOutcome(a: Outcome, b: Outcome)
    ensures SameOutcome(a, b) && a.x.Some? ==> Commas(a.x.value.input) == Commas(b.x.value.input)
  {
    if SameOutcome(a, b) && a.x.Some? { SameCommas(a.x.value.input, b.x.value.input); }
  }

  lemma {:induction false} SameCommas(s: string, t: string)
    requires SameShape(s, t)
    ensures Commas(s) == Commas(t)
  {
    if s != "" { SameCommas(s[1..], t[1..]); }
  }

  lemma SecondAgrees(s: string, t: string, pref: bool)
    requires SameShape(s, t) && !StampAfterWeekdays(s)
    ensures SameOutcome(Second(s, pref), Second(t, pref))
  {
    hide Scan, Weekday, Plain, SameShape, StampAfterWeekdays;
    SameStart(s, t, pref);
    NoStampNext(s, pref);
    if StartsOver(s, pref) {
      var u, v := Scan(s, pref).s, Scan(t, pref).s;
      SameStart(u, v, pref);
      NoStampNext(u, pref);
    }
    PlainAgrees(SecondString(s, pref), SecondString(t, pref), Local, !pref);
  }

  /** The retry can change this parse: its date is ambiguous, and not a Unix time, and,
      behind a weekday, its location is not Local already. */
  predicate Swappable(s: string, loc: Loc, pref: bool) {
    var a := Plain(s, loc, pref);
    a.x.Some? && a.x.value.p.ambiguousMD && a.x.value.p.t.None? && (Weekday(s) ==> loc != Local)
  }

  lemma PlainAgrees(s: string, t: string, loc: Loc, pref: bool)
    requires SameShape(s, t) && !StampAfterWeekdays(s)
    ensures SameOutcome(Plain(s, loc, pref), Plain(t, loc, pref))
  {
    hide ParseTime, Verdicts, SameShape, StampAfterWeekdays;
    NoVerdicts(s, t, loc, Options(pref, false), (l, i, z) => Time(0));
    ShapeFixesOutcome(s, t, loc, Options(pref, false), (l, i, z) => Time(0));
  }

  lemma SameStart(s: string, t: string, pref: bool)
    requires SameShape(s, t) && !StampAfterWeekdays(s)
    ensures Weekday(s) == Weekday(t) && SamePass(Scan(s, pref), Scan(t, pref)) && StartsOver(s, pref) == StartsOver(t, pref)
    ensures !StampAfterWeekdays(t)
  {
    hide Scan, IsDay, ToLower, StampAfterWeekdays;
    if |s| > 3 { NamesHaveNoDigits(s[..3], t[..3]); }
    NoStampNow(s);
    ScanAgrees(s, t, pref);
    if StampAfterWeekdays(t) { SameShapeStamp(t, s); }
  }

  // ---------------------------------------------------------------- a library that tells them apart

  lemma FirstKept(s: string, pref: bool)
    requires |s| > 0 && IsDigit(s[0])
    ensures var a := Scan(s, pref);
            Dotted(s, a.ds) && (a.Again? ==> Dotted(s, a.s))
  {
    hide RunDate, ScanTime, Finish;
    DigitNoRestart(s, pref);
    var f := RunDate(NewParser(|s|), pref, s, 0);
    if f.Break? {
      CoalesceDateInv(f.p, s, f.i);
      var q := f.p.CoalesceDate(f.i);
      if q.stateTime.TimeStart? { FirstKeptInTime(q, s, f.i); }
    }
  }

  lemma FirstKeptInTime(p: Parser, s: string, i: nat)
    requires DateEndInv(p, s, i) && p.stateTime.TimeStart? && |s| > 0
    ensures var a := ScanTime(p, s, i);
            Dotted(s, a.ds) && (a.Again? ==> Dotted(s, a.s))
  {
    hide RunTime, TimeFinish, Finish;
    RunTimeDots(p, s, s, SkipSpaces(s, if i < |s| then i + 1 else i));
  }

  /** The string the library reads for an ambiguous date starts with the digit that starts
      the date. */
  lemma {:induction false} AskedFirst(s: string, loc: Loc, pref: bool)
    requires var r := Plain(s, loc, pref); r.x.Some? && r.x.value.p.ambiguousMD
    ensures var u, v := AfterWeekdays(s), ParsedInput(Plain(s, loc, pref).x.value);
            |u| > 0 && IsDigit(u[0]) && |v| > 0 && v[0] == u[0]
    decreases |s|, Commas(s)
  {
    hide Scan, Parse, Weekday, Commas, Straight, FullMonth;
    ScanHandsOn(s, pref);
    var a := Scan(s, pref);
    var next := if a.Again? && a.keepOptions then pref else true;
    if Weekday(s) {
      AskedFirst(a.s, loc, next);
    } else {
      NotAWordHere(s, loc, pref);
      FirstKept(s, pref);
      if a.Again? { AskedFirst(a.s, loc, next); }
      else { AskingAmbiguous(Plain(s, loc, pref).x.value); }
    }
  }

  lemma NotAWordHere(s: string, loc: Loc, pref: bool)
    requires !Weekday(s) && (var r := Plain(s, loc, pref); r.x.Some? && r.x.value.p.ambiguousMD)
    ensures |s| > 0 && IsDigit(s[0])
  {
    hide Scan, Parse, Weekday, Sound, ParseTime;
    if |s| == 0 || (!IsDigit(s[0]) && !IsLetter(s[0])) {
      NoStart(s, pref);
      PlainIsStraight(s, loc, pref, (l, i, z) => Time(0));
    } else if IsLetter(s[0]) {
      WordsAreNeverAmbiguous(s, loc, Options(pref, false), (l, i, z) => Time(0));
    }
  }

  lemma AskingAmbiguous(x: Parsed)
    requires Sound(x) && x.p.ambiguousMD
    ensures ParsedInput(x) == x.ds[..x.p.dlen]
  {}

  /** The string with another first digit behind its weekdays. */
  function OtherDigit(s: string): (t: string)
    requires var u := AfterWeekdays(s); |u| > 0 && IsDigit(u[0])
    ensures SameShape(s, t) && (var u, v := AfterWeekdays(s), AfterWeekdays(t); |v| > 0 && v[0] != u[0])
  {
    hide IsDay, ToLower;
    if Weekday(s) then
      var t := s[..4] + OtherDigit(s[4..]);
      assert t[..3] == s[..3] && t[4..] == OtherDigit(s[4..]);
      t
    else
      var t := [if s[0] == '0' then '1' else '0'] + s[1..];
      assert !Weekday(t) by { NoDay(t, 0); }
      t
  }

  /** What the library is asked about a parser: layout, string and location. */
  function Question(x: Parsed): (string, string, Loc)
    requires Sound(x)
  {
    (ParsedLayout(x), ParsedInput(x), if x.p.zulu then UTC else x.loc)
  }

  /** In Local, the second parse asks just what the first one did. */
  predicate AsksAgain(s: string, pref: bool) {
    var a, b := Plain(s, Local, pref), Second(s, pref);
    a.x.Some? && b.x.Some? && b.x.value.p.ambiguousMD && b.x.value.p.t.None? && Question(a.x.value) == Question(b.x.value)
  }

  /** In Local, a date that starts over at a comma and has no third colon, of a shape for which
      the second deferred function always hears what the first one heard, and so undoes it. */
  ghost predicate Undone(s: string, pref: bool) {
    StartsOver(s, pref) && Scan(s, pref).ds == s && forall t :: SameShape(s, t) ==> AsksAgain(t, pref)
  }

  lemma RejectedShows(s: string, loc: Loc, pref: bool, lib: Lib)
    requires Swappable(s, loc, pref) && (loc == Local && StartsOver(s, pref) ==> Scan(s, pref).ds != s || !TwiceRejected(s, pref, lib))
    requires var q := Question(Plain(s, loc, pref).x.value); lib(q.0, q.1, q.2) == Failure(true)
    ensures EffectOf(s, loc, pref, lib) != Kept
  {
    hide Scan, Weekday, Plain, ParsedLayout, ParsedInput, TwiceRejected, StartsOver;
    if TwiceRejected(s, pref, lib) { TwiceStartsOver(s, pref, lib); }
  }

  lemma TwiceStartsOver(s: string, pref: bool, lib: Lib)
    requires TwiceRejected(s, pref, lib)
    ensures StartsOver(s, pref)
  {
    hide Scan, Weekday, Plain;
  }

  lemma AcceptedIsKept(s: string, loc: Loc, pref: bool, lib: Lib)
    requires Plain(s, loc, pref).x.Some?
    requires var q := Question(Plain(s, loc, pref).x.value); lib(q.0, q.1, q.2).Time?
    ensures EffectOf(s, loc, pref, lib) == Kept
  {
    hide Scan, Weekday, Plain, ParsedLayout, ParsedInput;
  }

  lemma UnswappableIsKept(s: string, t: string, loc: Loc, pref: bool, lib: Lib)
    requires SameShape(s, t) && !StampAfterWeekdays(s) && !Swappable(s, loc, pref)
    ensures EffectOf(s, loc, pref, lib) == EffectOf(t, loc, pref, lib) == Kept
  {
    hide Scan, Weekday, Plain, ParsedLayout, ParsedInput, SameShape, StampAfterWeekdays;
    PlainAgrees(s, t, loc, pref);
    SameStart(s, t, pref);
  }

  lemma AskedAgainIsKept(t: string, pref: bool, lib: Lib)
    requires AsksAgain(t, pref) && StartsOver(t, pref) && Scan(t, pref).ds == t
    ensures EffectOf(t, Local, pref, lib) == Kept
  {
    hide Scan, Weekday, Plain, ParsedLayout, ParsedInput, Second;
  }

  lemma UndoneIsKept(s: string, t: string, pref: bool, lib: Lib)
    requires SameShape(s, t) && !StampAfterWeekdays(s) && Undone(s, pref)
    ensures EffectOf(s, Local, pref, lib) == EffectOf(t, Local, pref, lib) == Kept
  {
    hide Scan, AsksAgain, EffectOf, StampAfterWeekdays, StartsOver;
    SameStart(s, t, pref);
    LeavesAlone(s, t, pref);
    ShapeRefl(s);
    AskedAgainIsKept(s, pref, lib);
    AskedAgainIsKept(t, pref, lib);
  }

  lemma ShapeRefl(s: string)
    ensures SameShape(s, s)
  {}

  /** A pass that puts no dot into one string puts none into another of its shape. */
  lemma LeavesAlone(s: string, t: string, pref: bool)
    requires SameShape(s, t) && StartsOver(t, pref) && Scan(s, pref).ds == s && SameShape(Scan(s, pref).ds, Scan(t, pref).ds)
    ensures Scan(t, pref).ds == t
  {
    hide Scan, Weekday;
    if |t| == 0 || !IsDigit(t[0]) {
      NoStart(t, pref);
      assert false;
    } else {
      FirstKept(t, pref);
      assert Scan(t, pref).ds == t;
    }
  }

  /** Where the retry can change a parse, some library and some string of the same shape
      come out differently: the library takes another first digit of the date, but this
      one's month is out of range. */
  lemma VerdictSeparates(s: string, loc: Loc, pref: bool) returns (t: string, lib: Lib)
    requires !StampAfterWeekdays(s) && Swappable(s, loc, pref)
    requires loc == Local && StartsOver(s, pref) ==> Scan(s, pref).ds != s || !AsksAgain(s, pref)
    ensures SameShape(s, t) && EffectOf(s, loc, pref, lib) != EffectOf(t, loc, pref, lib)
    ensures var o := Options(pref, true); !SameOutcome(ParseTime(s, loc, o, lib), ParseTime(t, loc, o, lib))
  {
    hide Scan, ParseTime, Sound, Weekday, StampAfterWeekdays, ParsedInput, ParsedLayout, Plain, Second, AfterWeekdays, EffectOf,
         StartsOver, AsksAgain, TwiceRejected;
    AskedFirst(s, loc, pref);
    t := OtherDigit(s);
    PlainAgrees(s, t, loc, pref);
    AskedFirst(t, loc, pref);
    var asked := Question(Plain(s, loc, pref).x.value);
    lib := (l, i, z) => if (l, i, z) == asked then Failure(true) else Time(0);
    if loc == Local && TwiceRejected(s, pref, lib) { OnlyOnceRejected(s, pref, asked, lib); }
    RejectedShows(s, loc, pref, lib);
    AcceptedIsKept(t, loc, pref, lib);
    VerdictDecides(s, t, loc, pref, lib);
  }

  lemma OnlyOnceRejected(s: string, pref: bool, asked: (string, string, Loc), lib: Lib)
    requires Plain(s, Local, pref).x.Some? && Question(Plain(s, Local, pref).x.value) == asked
    requires forall l, i, z :: lib(l, i, z) == Failure(true) ==> (l, i, z) == asked
    requires TwiceRejected(s, pref, lib)
    ensures StartsOver(s, pref) && AsksAgain(s, pref)
  {
    hide Scan, Weekday, Plain, ParsedLayout, ParsedInput, Second, StartsOver;
  }

  /** If some string of the shape asks two questions, this one comes out differently from it, or
      from one with another first digit. */
  lemma NotUndoneSeparates(s: string, pref: bool) returns (t: string, lib: Lib)
    requires !StampAfterWeekdays(s) && Swappable(s, Local, pref) && !Undone(s, pref)
    ensures SameShape(s, t)
    ensures var o := Options(pref, true); !SameOutcome(ParseTime(s, Local, o, lib), ParseTime(t, Local, o, lib))
  {
    hide Scan, ParseTime, Weekday, StampAfterWeekdays, AsksAgain, SameShape, EffectOf, Swappable, StartsOver, SameOutcome;
    if StartsOver(s, pref) && Scan(s, pref).ds == s {
      var u :| SameShape(s, u) && !AsksAgain(u, pref);
      SameStart(s, u, pref);
      SwappableShape(s, u, pref);
      var w;
      w, lib := VerdictSeparates(u, Local, pref);
      ShapeTrans(s, u, w);
      VerdictDecides(s, u, Local, pref, lib);
      VerdictDecides(s, w, Local, pref, lib);
      t := if EffectOf(s, Local, pref, lib) == EffectOf(u, Local, pref, lib) then w else u;
    } else {
      t, lib := VerdictSeparates(s, Local, pref);
    }
  }

  lemma ShapeTrans(s: string, t: string, u: string)
    requires SameShape(s, t) && SameShape(t, u)
    ensures SameShape(s, u)
  {}

  lemma SwappableShape(s: string, t: string, pref: bool)
    requires SameShape(s, t) && !StampAfterWeekdays(s) && Swappable(s, Local, pref)
    ensures Swappable(t, Local, pref)
  {
    hide Scan, Weekday, Plain, SameShape, StampAfterWeekdays;
    PlainAgrees(s, t, Local, pref);
    SameStart(s, t, pref);
  }

  /** With the retry on, the shape alone decides the outcome, whatever the library, exactly
      when the string is no Unix time and the retry cannot change it, or always undoes what it
      has changed. */
  lemma RetryShapeInvariance(s: string, loc: Loc, pref: bool)
    ensures (forall t, lib :: SameShape(s, t) ==>
                                SameOutcome(ParseTime(s, loc, Options(pref, true), lib), ParseTime(t, loc, Options(pref, true), lib)))
            <==> !StampAfterWeekdays(s) && (Swappable(s, loc, pref) ==> loc == Local && Undone(s, pref))
  {
    hide ParseTime, SameOutcome, StampAfterWeekdays, Verdicts, SameShape, Swappable, Undone, StartsOver, AsksAgain, EffectOf;
    var o := Options(pref, true);
    if StampAfterWeekdays(s) {
      var lib: Lib := (l, i, z) => Time(0);
      var t := StampBreaksShape(s, loc, o, lib);
    } else if !Swappable(s, loc, pref) || (loc == Local && Undone(s, pref)) {
      forall t, lib | SameShape(s, t) ensures SameOutcome(ParseTime(s, loc, o, lib), ParseTime(t, loc, o, lib)) {
        if Swappable(s, loc, pref) { UndoneIsKept(s, t, pref, lib); } else { UnswappableIsKept(s, t, loc, pref, lib); }
        VerdictDecides(s, t, loc, pref, lib);
      }
    } else if loc == Local {
      var t, lib := NotUndoneSeparates(s, pref);
    } else {
      var t, lib := VerdictSeparates(s, loc, pref);
    }
  }

  /** Where the preference is not asked for, as in "1-Jan-14 10:00:00,5", the second question is
      always the first. */
  lemma NamedMonthsAreUndone(s: string, pref: bool)
    requires StartsOver(s, pref) && Scan(s, pref).ds == s && !StampAfterWeekdays(s) && Swappable(s, Local, pref)
    requires !SlashOrColon(Plain(s, Local, pref).x.value.p.stateDate)
    ensures Undone(s, pref)
  {
    hide Scan, Weekday, StampAfterWeekdays, Plain, StartsOver, SameShape;
    forall t | SameShape(s, t) ensures AsksAgain(t, pref) {
      SameStart(s, t, pref);
      LeavesAlone(s, t, pref);
      PlainAgrees(s, t, Local, pref);
      AsksTheSame(t, pref);
    }
  }

  lemma AsksTheSame(s: string, pref: bool)
    requires StartsOver(s, pref) && Plain(s, Local, pref).x.Some?
    requires var p := Plain(s, Local, pref).x.value.p; p.ambiguousMD && p.t.None? && !SlashOrColon(p.stateDate)
    ensures AsksAgain(s, pref)
  {
    hide Scan, Weekday, Plain, ParsedLayout, ParsedInput;
    if |s| == 0 || !IsDigit(s[0]) {
      NoStart(s, pref);
      assert false;
    } else {
      var t := Scan(s, pref).s;
      ScanAfterComma(s, pref);
      StartedOverPlain(s, Local, pref, (l, i, z) => Time(0));
      PlainAlike(t, Local, Local, pref, !pref);
      PlainCarries(t, Local, pref);
      PlainCarries(t, Local, !pref);
      SameParserSameQuestion(Plain(s, Local, pref).x.value, Second(s, pref).x.value);
    }
  }

  lemma SameParserSameQuestion(x: Parsed, y: Parsed)
    requires Sound(x) && Sound(y) && x.p == y.p && x.ds == y.ds && x.input == y.input && x.loc == y.loc
    ensures Question(x) == Question(y)
  {}

  /** Digits, other than four of them, a slash, and then digits and slashes. */
  predicate SlashDate(s: string, n: nat) {
    && 1 <= n < |s| && n != 4 && s[n] == '/'
    && (forall k :: 0 <= k < n ==> IsDigit(s[k]))
    && (forall k :: n < k < |s| ==> IsDigit(s[k]) || s[k] == '/')
  }

  lemma {:induction false} RunSlashDate(p: Parser, pref: bool, s: string, n: nat, i: nat)
    requires DateInv(p, s, i) && SlashDate(s, n) && 1 <= i <= |s| && p.t.None? && p.stateTime.TimeIgnore?
    requires if i <= n then p.stateDate.DateDigit? else p.stateDate.DateDigitSlash? && p.ambiguousMD
    ensures var f := RunDate(p, pref, s, i);
            f.Break? && f.p.stateDate.DateDigitSlash? && f.p.ambiguousMD && f.p.t.None? && f.p.stateTime.TimeIgnore?
    decreases |s| - i
  {
    hide Write, Either, Roles, DateStep;
    if i < |s| {
      SlashDateStep(p, pref, s, n, i);
      RunSlashDate(DateStep(p, pref, s, i).p, pref, s, n, i + 1);
    }
  }

  lemma SlashDateStep(p: Parser, pref: bool, s: string, n: nat, i: nat)
    requires DateAt(p, s, i) && SlashDate(s, n) && 1 <= i && p.t.None? && p.stateTime.TimeIgnore?
    requires if i <= n then p.stateDate.DateDigit? else p.stateDate.DateDigitSlash? && p.ambiguousMD
    ensures var f := DateStep(p, pref, s, i);
            && f.Next? && f.i == i + 1 && f.p.t.None? && f.p.stateTime.TimeIgnore?
            && (if i + 1 <= n then f.p.stateDate.DateDigit? else f.p.stateDate.DateDigitSlash? && f.p.ambiguousMD)
  {
    hide Write, Either, Roles, DateFlowInv, OnDigitColon1, OnDigitDot1;
    assert i + 1 < |s| && i == n ==> !IsLetter(s[i + 1]);
  }

  /** Every such date can be changed by the retry: "1/2/2014" for one. */
  lemma SlashDatesAreSwappable(s: string, n: nat, loc: Loc, pref: bool)
    requires SlashDate(s, n)
    ensures Swappable(s, loc, pref) && !StampAfterWeekdays(s) && !StartsOver(s, pref)
  {
    hide RunDate, ScanTime, Write, Either, IsDay, ToLower;
    var p := NewParser(|s|);
    DigitStarts(p, pref, s);
    assert RunDate(p, pref, s, 0) == RunDate(p.(stateDate := DateDigit), pref, s, 1) by { FirstTurn(s, pref); }
    RunSlashDate(p.(stateDate := DateDigit), pref, s, n, 1);
    assert !IsDigit(s[n]);
    NoDay(s, 0);
  }

  lemma FirstTurn(s: string, pref: bool)
    requires |s| > 0 && IsDigit(s[0])
    ensures DateInv(NewParser(|s|).(stateDate := DateDigit), s, 1)
    ensures RunDate(NewParser(|s|), pref, s, 0) == RunDate(NewParser(|s|).(stateDate := DateDigit), pref, s, 1)
  {
    hide DateStep;
    DigitStarts(NewParser(|s|), pref, s);
  }

  /** Whatever the verdicts, strings of one shape succeed alike or fail with one error. */
  lemma OneShapeOneError(s: string, t: string, loc: Loc, o: Options, lib: Lib)
    requires SameShape(s, t) && !StampAfterWeekdays(s)
    ensures Equiv(ParseTime(s, loc, o, lib), ParseTime(t, loc, o, lib))
  {
    hide ParseTime, StampAfterWeekdays, SameShape, Verdicts;
    var plain := Options(o.preferMonthFirst, false);
    NoVerdicts(s, t, loc, plain, lib);
    ShapeFixesOutcome(s, t, loc, plain, lib);
    RetryKeepsTheOutcome(s, loc, o.preferMonthFirst, lib);
    RetryKeepsTheOutcome(t, loc, o.preferMonthFirst, lib);
  }
}

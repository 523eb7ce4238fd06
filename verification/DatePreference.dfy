// The month-first preference decides which digits are the month, never whether or how
// far a date is parsed; so the retry that exchanges them cannot lose a parser.
module DatePreference {
  import opened DateText
  import opened DateParser
  import opened DateAgree
  import opened DateRuns

  predicate SlashOrColon(d: DateState) { d.DateDigitSlash? || d.DateDigitColon? }

  /** Parses under two preferences: equal, or alike inside a slash or colon date. */
  ghost predicate Alike(p: Parser, q: Parser) {
    q == p || (SlashOrColon(p.stateDate) && Loose(p, q))
  }

  ghost predicate AlikeFlow(f: Flow, g: Flow) {
    match f
    case Next(p, d, i) => g.Next? && Alike(p, g.p) && g.i == i && g.ds == d
    case Break(p, d, i) => g.Break? && Alike(p, g.p) && g.i == i && g.ds == d
    case _ => g == f
  }

  // ---------------------------------------------------------------- one turn

  lemma SlashAlike(p: Parser, q: Parser, a: bool, b: bool, s: string, i: nat)
    requires DateAt(p, s, i) && DateAt(q, s, i) && Loose(p, q) && p.stateDate.DateDigitSlash?
    ensures AlikeFlow(OnDigitSlash(p, a, s, i), OnDigitSlash(q, b, s, i))
  {
    hide Write, Either, DateInv, DateFlowInv;
  }

  lemma ColonAlike(p: Parser, q: Parser, a: bool, b: bool, s: string, i: nat)
    requires DateAt(p, s, i) && DateAt(q, s, i) && Loose(p, q) && p.stateDate.DateDigitColon?
    ensures AlikeFlow(OnDigitColon(p, a, s, i), OnDigitColon(q, b, s, i))
  {
    hide Write, Either, DateInv, DateFlowInv;
  }

  lemma DigitAlike(p: Parser, a: bool, b: bool, s: string, i: nat)
    requires DateAt(p, s, i) && p.stateDate.DateDigit?
    ensures AlikeFlow(OnDigitSlash1(p, a, s, i), OnDigitSlash1(p, b, s, i))
    ensures AlikeFlow(OnDigitColon1(p, a, s, i), OnDigitColon1(p, b, s, i))
  {
    hide Write, Either, DateInv, DateFlowInv;
  }

  lemma DateStepAlike(p: Parser, q: Parser, a: bool, b: bool, s: string, i: nat)
    requires DateAt(p, s, i) && DateAt(q, s, i) && Alike(p, q)
    ensures AlikeFlow(DateStep(p, a, s, i), DateStep(q, b, s, i))
  {
    hide Roles, DateFlowInv, DashesStep, DayDashesStep, WordsStep, MonthsStep, WeekdaysStep;
    hide OnDigitSlash, OnDigitColon, OnDigitSlash1, OnDigitColon1;
    match p.stateDate
    case DateDigitSlash => SlashAlike(p, q, a, b, s, i);
    case DateDigitColon => ColonAlike(p, q, a, b, s, i);
    case DateDigit => DigitAlike(p, a, b, s, i);
    case _ =>
  }

  // ---------------------------------------------------------------- the runs

  lemma {:induction false} RunDateAlike(p: Parser, q: Parser, a: bool, b: bool, s: string, i: nat)
    requires DateInv(p, s, i) && DateInv(q, s, i) && Alike(p, q)
    ensures AlikeFlow(RunDate(p, a, s, i), RunDate(q, b, s, i))
    ensures DateTrace(p, a, s, i) == DateTrace(q, b, s, i)
    decreases if p.stateDate.DateAlphaWsMonthSuffix? then 0 else 1, if i < |s| then |s| - i else 0
  {
    hide DateStep, Roles;
    if i < |s| {
      DateStepAlike(p, q, a, b, s, i);
      var f, g := DateStep(p, a, s, i), DateStep(q, b, s, i);
      if f.Next? { RunDateAlike(f.p, g.p, a, b, s, f.i); }
    }
  }

  ghost predicate AlikeResult(x: Result, y: Result) {
    && y.err == x.err && y.p.Some? == x.p.Some?
    && (x.p.Some? ==> Alike(x.p.value, y.p.value))
  }

  ghost predicate AlikePass(x: Pass, y: Pass) {
    match x
    case Again(_, _, _) => y == x
    case Done(res, d) => y.Done? && y.ds == d && AlikeResult(res, y.res)
  }

  lemma FinishAlike(p: Parser, q: Parser, ds: string, i: int)
    requires Finishable(p) && Finishable(q) && Alike(p, q)
    ensures AlikeResult(Finish(p, ds, i), Finish(q, ds, i))
  {
    hide Write, Either, Roles;
  }

  lemma CoalesceAlike(p: Parser, q: Parser, i: int)
    requires Alike(p, q)
    ensures Alike(p.CoalesceDate(i), q.CoalesceDate(i))
    ensures FractionFits(p) ==> FractionFits(q) && Alike(p.CoalesceTime(i), q.CoalesceTime(i))
  {
    hide Write, Either, Zeros;
  }

  /** What the time loop of a pass visits, from the end of the date loop. */
  function TimeVisits(p: Parser, s: string, i: nat): seq<Visit>
    requires DateEndInv(p, s, i) && p.stateTime.TimeStart?
  {
    hide Accepting;
    TimeTrace(p, s, SkipSpaces(s, if i < |s| then i + 1 else i))
  }

  /** Every state and index a pass goes through. */
  function ScanTrace(s: string, pref: bool): seq<Visit> {
    hide RunDate, DateTrace, TimeVisits;
    var p := NewParser(|s|);
    var f := RunDate(p, pref, s, 0);
    DateTrace(p, pref, s, 0) +
    (if f.Break? && f.p.stateTime.TimeStart?
     then TimeVisits(f.p.CoalesceDate(f.i), s, f.i)
     else [])
  }

  lemma {:induction false} RunTimeSame(p: Parser, q: Parser, ds: string, i: nat)
    requires TimeInv(p, ds, i) && TimeInv(q, ds, i) && Alike(p, q)
    ensures var f, g := RunTime(p, ds, i), RunTime(q, ds, i);
            if f.Break? then g.Break? && g.ds == f.ds && g.i == f.i && Alike(f.p, g.p) else g == f
    ensures TimeTrace(p, ds, i) == TimeTrace(q, ds, i)
    decreases |ds| - i
  {
    hide TimeStep, Roles;
    if i < |ds| && q != p {
      TimeStepAgrees(p, q, false, ds, ds, i);
      var f, g := TimeStep(p, ds, i), TimeStep(q, ds, i);
      if f.Next? {
        assert f.ds[i] == g.ds[i]; RunTimeSame(f.p, g.p, f.ds, f.i); }
    }
  }

  lemma TimeEndAlike(p: Parser, q: Parser, ds: string, i: int)
    requires TimeEndInv(p, ds, i) && TimeEndInv(q, ds, i) && Alike(p, q)
    ensures var u, v := TimeFinish(p, ds, i), TimeFinish(q, ds, i);
            if u.Break?
            then v.Break? && v.i == u.i && AlikeResult(Finish(u.p.CoalesceTime(u.i), ds, u.i),
                                                       Finish(v.p.CoalesceTime(v.i), ds, v.i))
            else v.Return? && AlikeResult(u.res, v.res)
  {
    hide TimeFinish, Finish, TimeEndInv, Write, Either, Zeros;
    if q != p {
      TimeFinishAgrees(p, q, false, ds, ds, i);
      var u, v := TimeFinish(p, ds, i), TimeFinish(q, ds, i);
      if u.Break? {
        CoalesceAlike(u.p, v.p, u.i);
        FinishAlike(u.p.CoalesceTime(u.i), v.p.CoalesceTime(v.i), ds, u.i);
      }
    }
  }

  lemma ScanTimeAlike(p: Parser, q: Parser, s: string, i: nat)
    requires DateEndInv(p, s, i) && DateEndInv(q, s, i) && p.stateTime.TimeStart? && Alike(p, q)
    ensures AlikePass(ScanTime(p, s, i), ScanTime(q, s, i))
    ensures TimeVisits(p, s, i) == TimeVisits(q, s, i)
  {
    hide RunTime, TimeTrace, TimeFinish, Finish, Accepting, AlikeResult, Write, Either, Zeros;
    var j := SkipSpaces(s, if i < |s| then i + 1 else i);
    RunTimeSame(p, q, s, j);
    var f, g := RunTime(p, s, j), RunTime(q, s, j);
    if f.Break? { TimeEndAlike(f.p, g.p, f.ds, f.i); }
  }

  lemma ScanAlike(s: string, a: bool, b: bool)
    ensures AlikePass(Scan(s, a), Scan(s, b))
  {
    hide RunDate, ScanTime, Finish, DateTrace, Accepting, Write, Either;
    var p := NewParser(|s|);
    RunDateAlike(p, p, a, b, s, 0);
    var f, g := RunDate(p, a, s, 0), RunDate(p, b, s, 0);
    if f.Break? {
      CoalesceAlike(f.p, g.p, f.i);
      CoalesceDateInv(f.p, s, f.i);
      CoalesceDateInv(g.p, s, f.i);
      var u, v := f.p.CoalesceDate(f.i), g.p.CoalesceDate(f.i);
      if u.stateTime.TimeStart? { ScanTimeAlike(u, v, s, f.i); }
      else { FinishAlike(u, v, s, f.i); }
    }
  }

  lemma TraceAlike(s: string, a: bool, b: bool)
    ensures ScanTrace(s, a) == ScanTrace(s, b)
  {
    hide RunDate, RunTime, ScanTime, DateTrace, TimeVisits, Accepting, Write, Either, Zeros, Finish, TimeFinish, AlikePass;
    var p := NewParser(|s|);
    RunDateAlike(p, p, a, b, s, 0);
    var f, g := RunDate(p, a, s, 0), RunDate(p, b, s, 0);
    if f.Break? && f.p.stateTime.TimeStart? {
      CoalesceAlike(f.p, g.p, f.i);
      CoalesceDateInv(f.p, s, f.i);
      CoalesceDateInv(g.p, s, f.i);
      ScanTimeAlike(f.p.CoalesceDate(f.i), g.p.CoalesceDate(f.i), s, f.i);
    }
  }

  /** Non-interference: whichever way the preference is set, a pass goes through the same
      states and indices and ends in the same success or error; outside slash and colon
      dates it ends in the same parser, and inside them only date spans and the bytes
      written differ. */
  lemma PreferenceSteersNothing(s: string, a: bool, b: bool)
    ensures AlikePass(Scan(s, a), Scan(s, b))
    ensures ScanTrace(s, a) == ScanTrace(s, b)
  {
    hide Scan, ScanTrace;
    ScanAlike(s, a, b);
    TraceAlike(s, a, b);
  }
}

// Two whole parses side by side: what a string's shape and the month-first
// preference can and cannot change.
module DateRuns {
  import opened DateText
  import opened DateParser
  import opened DateAgree

  /** What a scanning loop visits: the states and the index at every turn. */
  type Visit = (DateState, TimeState, int)

  function DateTrace(p: Parser, pref: bool, s: string, i: nat): seq<Visit>
    requires DateInv(p, s, i)
    decreases if p.stateDate.DateAlphaWsMonthSuffix? then 0 else 1, if i < |s| then |s| - i else 0
  {
    if i >= |s| then []
    else
      hide DateStep;
      var f := DateStep(p, pref, s, i);
      [(p.stateDate, p.stateTime, i)] + (if f.Next? then DateTrace(f.p, pref, s, f.i) else [])
  }

  function TimeTrace(p: Parser, ds: string, i: nat): seq<Visit>
    requires TimeInv(p, ds, i)
    decreases |ds| - i
  {
    if i >= |ds| then []
    else
      hide TimeStep;
      var f := TimeStep(p, ds, i);
      [(p.stateDate, p.stateTime, i)] + (if f.Next? then TimeTrace(f.p, f.ds, f.i) else [])
  }

  // ---------------------------------------------------------------- one shape

  lemma {:induction false} RunDateAgrees(p: Parser, pref: bool, s: string, t: string, i: nat)
    requires DateInv(p, s, i) && SameShape(s, t)
    ensures DateInv(p, t, i)
    ensures SimFlow(RunDate(p, pref, s, i), RunDate(p, pref, t, i), true)
    ensures DateTrace(p, pref, s, i) == DateTrace(p, pref, t, i)
    decreases if p.stateDate.DateAlphaWsMonthSuffix? then 0 else 1, if i < |s| then |s| - i else 0
  {
    hide DateStep, Roles, Loose;
    if i < |s| {
      DateStepAgrees(p, pref, s, t, i);
      var f := DateStep(p, pref, s, i);
      if f.Next? { RunDateAgrees(f.p, pref, s, t, f.i); }
    }
  }

  lemma {:induction false} RunTimeAgrees(p: Parser, q: Parser, exact: bool, s: string, t: string, i: nat)
    requires TimeInv(p, s, i) && TimeInv(q, t, i) && Sim(p, q, exact) && SameShape(s, t)
    ensures SimFlow(RunTime(p, s, i), RunTime(q, t, i), exact)
    ensures TimeTrace(p, s, i) == TimeTrace(q, t, i)
    decreases |s| - i
  {
    hide TimeStep, Roles;
    if i < |s| {
      TimeStepAgrees(p, q, exact, s, t, i);
      var f, g := TimeStep(p, s, i), TimeStep(q, t, i);
      if f.Next? { RunTimeAgrees(f.p, g.p, exact, f.ds, g.ds, f.i); }
    }
  }

  lemma {:induction false} SkipAgrees(s: string, t: string, i: nat)
    requires SameShape(s, t)
    ensures SkipSpaces(s, i) == SkipSpaces(t, i)
    decreases |s| - i
  {
    if i < |s| && s[i] == ' ' { SkipAgrees(s, t, i + 1); }
  }

  lemma AbbreviationFinishAgrees(p: Parser, q: Parser, exact: bool, s: string, t: string, i: int)
    requires TimeEndInv(p, s, i) && TimeEndInv(q, t, i) && Sim(p, q, exact) && SameShape(s, t)
    requires p.stateTime.TimeWsAlpha?
    ensures SimFlow(AbbreviationFinish(p, s, i), AbbreviationFinish(q, t, i), exact)
  {
    hide Write, Either, Roles, FinishInv;
  }

  lemma OffsetFinishAgrees(p: Parser, q: Parser, exact: bool, s: string, t: string, i: int)
    requires TimeEndInv(p, s, i) && TimeEndInv(q, t, i) && Sim(p, q, exact) && SameShape(s, t)
    requires p.stateTime.TimeOffset?
    ensures SimFlow(OffsetFinish(p, s, i), OffsetFinish(q, t, i), exact)
  {
    hide Write, Either, Roles, FinishInv;
  }

  lemma OffsetEndFinishAgrees(p: Parser, q: Parser, exact: bool, s: string, t: string, i: int)
    requires TimeEndInv(p, s, i) && TimeEndInv(q, t, i) && Sim(p, q, exact) && SameShape(s, t)
    requires EndsInOffset(p.stateTime)
    ensures SimFlow(OffsetEndFinish(p, s, i), OffsetEndFinish(q, t, i), exact)
  {
    hide Write, Either, Roles, FinishInv;
  }

  lemma TailFinishAgrees(p: Parser, q: Parser, exact: bool, s: string, t: string, i: int)
    requires TimeEndInv(p, s, i) && TimeEndInv(q, t, i) && Sim(p, q, exact) && SameShape(s, t)
    ensures SimFlow(TailFinish(p, s, i), TailFinish(q, t, i), exact)
  {
    hide Write, Either, Roles, FinishInv;
  }

  lemma TimeFinishAgrees(p: Parser, q: Parser, exact: bool, s: string, t: string, i: int)
    requires TimeEndInv(p, s, i) && TimeEndInv(q, t, i) && Sim(p, q, exact) && SameShape(s, t)
    ensures SimFlow(TimeFinish(p, s, i), TimeFinish(q, t, i), exact)
  {
    hide Roles, FinishInv, AbbreviationFinish, OffsetFinish, OffsetEndFinish, TailFinish;
    if p.stateTime.TimeWsAlpha? { AbbreviationFinishAgrees(p, q, exact, s, t, i); }
    else if p.stateTime.TimeOffset? { OffsetFinishAgrees(p, q, exact, s, t, i); }
    else if EndsInOffset(p.stateTime) { OffsetEndFinishAgrees(p, q, exact, s, t, i); }
    else { TailFinishAgrees(p, q, exact, s, t, i); }
  }

  // ---------------------------------------------------------------- one shape, one pass

  /** A string whose last pass reads it as a Unix time: only here do digits matter. */
  predicate Stamp(s: string) {
    AllDigits(s) && (|s| == 10 || |s| == 13 || |s| == 16 || |s| == 19)
  }

  ghost predicate SamePass(a: Pass, b: Pass) {
    match a
    case Done(res, d) => b.Done? && b.res == res && SameShape(d, b.ds)
    case Again(s, k, d) => b.Again? && b.keepOptions == k && SameShape(s, b.s) && SameShape(d, b.ds)
  }

  lemma FinishAgrees(p: Parser, s: string, t: string, i: int)
    requires Finishable(p) && SameShape(s, t)
    requires p.stateDate.DateDigit? ==> !Stamp(s)
    ensures Finish(p, s, i) == Finish(p, t, i)
  {
    hide Write, Either, Roles;
    assert AllDigits(s) == AllDigits(t);
  }

  lemma EndTimeAgrees(p: Parser, s: string, t: string, i: int)
    requires TimeEndInv(p, s, i) && TimeEndInv(p, t, i) && SameShape(s, t)
    requires p.stateDate.DateDigit? ==> !Stamp(s)
    ensures SamePass(EndTime(p, s, i), EndTime(p, t, i))
  {
    hide TimeFinish, Finish, Stamp;
    TimeFinishAgrees(p, p, true, s, t, i);
    var u := TimeFinish(p, s, i);
    if u.Break? { FinishAgrees(u.p.CoalesceTime(u.i), s, t, u.i); }
  }

  lemma ScanTimeAgrees(p: Parser, s: string, t: string, i: nat)
    requires DateEndInv(p, s, i) && DateEndInv(p, t, i) && p.stateTime.TimeStart? && SameShape(s, t)
    ensures SamePass(ScanTime(p, s, i), ScanTime(p, t, i))
  {
    hide RunTime, EndTime, Stamp;
    SkipAgrees(s, t, if i < |s| then i + 1 else i);
    var j := SkipSpaces(s, if i < |s| then i + 1 else i);
    RunTimeAgrees(p, p, true, s, t, j);
    var f, g := RunTime(p, s, j), RunTime(p, t, j);
    if f.Break? { EndTimeAgrees(f.p, f.ds, g.ds, f.i); }
  }

  /** One pass does the same on every string of one shape, unless it ends in a Unix time. */
  lemma ScanAgrees(s: string, t: string, pref: bool)
    requires SameShape(s, t) && !Stamp(s)
    ensures SamePass(Scan(s, pref), Scan(t, pref))
  {
    hide RunDate, ScanTime, Finish;
    RunDateAgrees(NewParser(|s|), pref, s, t, 0);
    var f := RunDate(NewParser(|s|), pref, s, 0);
    if f.Break? {
      var p := f.p.CoalesceDate(f.i);
      if p.stateTime.TimeStart? { ScanTimeAgrees(p, s, t, f.i); }
      else { FinishAgrees(p, s, t, f.i); }
    }
  }
}

// The stages of the date loop, and how a date is joined to what follows it.
module DateStages {
  import opened DateText
  import opened DateParser
  import opened DateWalk
  import opened DateSpelling
  import opened DateClock
  import opened DateTail

  /** Nothing of a time has been read. */
  predicate Untimed(p: Parser) {
    && !p.zulu && p.houri == 0 && p.hourlen == 0 && p.mini == 0 && p.minlen == 0 && p.seci == 0 && p.seclen == 0
    && p.msi == 0 && p.mslen == 0 && p.tzi == 0 && p.tzlen == 0 && p.extra == 0
  }

  /** The date loop has come to i, with `text` in the buffer. */
  ghost predicate DateStage(s: string, pref: bool, w: Parser, i: nat, text: string) {
    && DateInv(w, s, i) && RunDate(NewParser(|s|), pref, s, 0) == RunDate(w, pref, s, i)
    && Untimed(w) && |w.layout| == |s| && Render(w.layout, s) == text
  }

  /** The date loop has been left at k, and the spans that were open are closed there. */
  ghost predicate Dated(s: string, pref: bool, p: Parser, k: int, text: string) {
    var f := RunDate(NewParser(|s|), pref, s, 0);
    && f.Break? && f.i == k && p == f.p.CoalesceDate(k) && DateEndInv(p, s, k)
    && Untimed(p) && |p.layout| == |s| && Render(p.layout, s) == text
  }

  lemma NumberBegins(s: string, pref: bool, n: nat)
    requires 1 <= n <= |s| && forall k :: 0 <= k < n ==> IsDigit(s[k])
    ensures DateStage(s, pref, NewParser(|s|).(stateDate := DateDigit), n, s)
  {
    hide RunDate, Roles;
    FirstNumber(s, pref, n);
    RenderFresh(s);
  }

  lemma WordBegins(s: string, pref: bool, n: nat)
    requires 1 <= n <= |s| && forall k :: 0 <= k < n ==> IsLetter(s[k])
    ensures DateStage(s, pref, NewParser(|s|).(stateDate := DateAlpha), n, s)
  {
    hide RunDate, Roles;
    FirstWord(s, pref, n);
    RenderFresh(s);
  }

  /** One turn further. */
  lemma DateGoes(s: string, pref: bool, w: Parser, i: nat, text: string, j: nat, u: Parser, text': string)
    requires DateStage(s, pref, w, i, text) && QuietAll(w.stateDate, s, i, j) && j < |s|
    requires DateInv(w, s, j) ==> DateTurn(w, pref, s, j) == Next(u, s, j + 1)
    requires Untimed(u) && |u.layout| == |s| && Render(u.layout, s) == text'
    ensures DateStage(s, pref, u, j + 1, text')
  {
    hide RunDate, DateTurn, DateInv, QuietAll, Render, Untimed;
    DateHop(w, pref, s, i, j, u);
  }

  lemma DateGoesTwo(s: string, pref: bool, w: Parser, i: nat, text: string, j: nat, u: Parser, text': string)
    requires DateStage(s, pref, w, i, text) && QuietAll(w.stateDate, s, i, j) && j < |s|
    requires DateInv(w, s, j) ==> DateTurn(w, pref, s, j) == Next(u, s, j + 2)
    requires Untimed(u) && |u.layout| == |s| && Render(u.layout, s) == text'
    ensures DateStage(s, pref, u, j + 2, text')
  {
    hide RunDate, DateTurn, DateInv, QuietAll, Render, Untimed;
    DateHopsTwo(w, pref, s, i, j, u);
  }

  /** The loop is left in a turn. */
  lemma DateStops(s: string, pref: bool, w: Parser, i: nat, text: string, j: nat, u: Parser, k: int, text': string)
    requires DateStage(s, pref, w, i, text) && QuietAll(w.stateDate, s, i, j) && j < |s|
    requires DateInv(w, s, j) ==> DateTurn(w, pref, s, j) == Break(u, s, k)
    requires var p := u.CoalesceDate(k); Untimed(p) && |p.layout| == |s| && Render(p.layout, s) == text'
    ensures Dated(s, pref, u.CoalesceDate(k), k, text')
  {
    hide RunDate, DateTurn, DateInv, DateEndInv, QuietAll, Render, Untimed, Parser.CoalesceDate;
    DateLeaves(w, pref, s, i, j, u, k);
    CoalesceDateInv(u, s, k);
  }

  /** The string is at its end. */
  lemma DateRunsOut(s: string, pref: bool, w: Parser, i: nat, text: string, text': string)
    requires DateStage(s, pref, w, i, text) && QuietAll(w.stateDate, s, i, |s|)
    requires var p := w.CoalesceDate(|s|); Untimed(p) && |p.layout| == |s| && Render(p.layout, s) == text'
    ensures Dated(s, pref, w.CoalesceDate(|s|), |s|, text')
  {
    hide RunDate, DateEndInv, QuietAll, Render, Untimed, Parser.CoalesceDate;
    DatePasses(w, pref, s, i, |s|);
    DateEnds(w, pref, s, i);
    DateInvEnds(w, s, |s|);
    CoalesceDateInv(w, s, |s|);
  }

  lemma DateInvEnds(w: Parser, s: string, i: int)
    requires DateInv(w, s, i)
    ensures DateEndInv(w, s, i)
  {}

  // ---------------------------------------------------------------- to the end of the pass

  lemma SkipsTo(s: string, i: nat, j: nat)
    requires i <= j < |s| && (forall k :: i <= k < j ==> s[k] == ' ') && s[j] != ' '
    ensures SkipSpaces(s, i) == j
  {}

  lemma ScanIs(s: string, pref: bool, p: Parser, k: nat, text: string)
    requires Dated(s, pref, p, k, text)
    ensures Scan(s, pref) == if p.stateTime.TimeStart? then ScanTime(p, s, k) else Done(Finish(p, s, k), s)
  {
    hide RunDate, ScanTime, Finish, Render, Untimed, DateEndInv;
  }

  lemma ScanTimeIs(p: Parser, s: string, k: nat, j: nat)
    requires DateEndInv(p, s, k) && p.stateTime.TimeStart? && Untimed(p) && k < |s| && j == SkipSpaces(s, k + 1)
    ensures TimeInv(p, s, j) && ScanTime(p, s, k) == Tailed(p, s, j)
  {
    hide RunTime, EndTime, Roles;
  }

  /** A date, and a clock behind it that starts where `pre` ends. */
  lemma DateThenClock(s: string, pref: bool, p: Parser, k: nat, pre: string, c: Clock, e: nat)
    requires k < |pre| <= |s| && Dated(s, pref, p, k, pre + s[|pre|..]) && (forall i :: k < i < |pre| ==> s[i] == ' ')
    requires p.stateTime.TimeStart? && p.offseti == 0 && Settled(p, |s|) && Stands(c, s, |pre|, e)
    ensures Before(p, s, c, pre, e) && Scan(s, pref) == Tailed(p, s, |pre|)
  {
    hide RunDate, ScanTime, Finish, Render, DateEndInv, TimeInv, Tailed, Clock.Text, Clock.Laid, Scan, Settled;
    ClockBytes(c, s, |pre|, e);
    assert IsDigit(s[|pre|]);
    SkipsTo(s, k + 1, |pre|);
    ScanIs(s, pref, p, k, pre + s[|pre|..]);
    ScanTimeIs(p, s, k, |pre|);
    assert p.dlen == |s| by { DlenIs(p, s, k); }
    assert Unread(p);
  }

  lemma DlenIs(p: Parser, s: string, k: int)
    requires DateEndInv(p, s, k)
    ensures p.dlen == |s|
  {}

  /** "at " before a clock is passed over: the hour starts behind it. */
  lemma AtIsPassed(p: Parser, s: string, j: nat)
    requires TimeInv(p, s, j) && Unread(p) && j + 3 < |s| && s[j] == 'a' && s[j + 1] == 't' && s[j + 2] == ' '
    ensures TimeInv(p, s, j + 3) && Tailed(p, s, j) == Tailed(p, s, j + 3)
  {
    hide RunTime, TimeStep, EndTime, Roles, Commas, TimeFlowInv;
    TimeStepTurns(p, s, j);
    assert p.(houri := j).(houri := 0) == p;
    assert TimeTurn(p, s, j) == Next(p, s, j + 3);
    AtStep(p, s, j);
  }

  lemma AtStep(p: Parser, s: string, j: nat)
    requires TimeAt(p, s, j) && TimeStep(p, s, j) == Next(p, s, j + 3)
    ensures TimeInv(p, s, j + 3) && RunTime(p, s, j) == RunTime(p, s, j + 3)
  {
    hide TimeStep, Roles, Commas;
  }

  /** The same with "at " between. */
  lemma DateAtClock(s: string, pref: bool, p: Parser, k: nat, pre: string, c: Clock, e: nat)
    requires 3 < |pre| <= |s| && k < |pre| - 3 && pre[|pre| - 3..] == "at "
    requires Dated(s, pref, p, k, pre + s[|pre|..]) && (forall i :: k < i < |pre| - 3 ==> s[i] == ' ')
    requires s[|pre| - 3] == 'a' && s[|pre| - 2] == 't' && s[|pre| - 1] == ' '
    requires p.stateTime.TimeStart? && p.offseti == 0 && Settled(p, |s|) && Stands(c, s, |pre|, e)
    ensures Before(p, s, c, pre, e) && Scan(s, pref) == Tailed(p, s, |pre|)
  {
    hide RunDate, ScanTime, Finish, Render, DateEndInv, TimeInv, Tailed, Clock.Text, Clock.Laid, Scan, Settled;
    ClockBytes(c, s, |pre|, e);
    SkipsTo(s, k + 1, |pre| - 3);
    ScanIs(s, pref, p, k, pre + s[|pre|..]);
    ScanTimeIs(p, s, k, |pre| - 3);
    assert p.dlen == |s| by { DlenIs(p, s, k); }
    assert Unread(p);
    AtIsPassed(p, s, |pre| - 3);
  }

  /** A date alone. */
  lemma DateAlone(s: string, pref: bool, p: Parser, text: string)
    requires Dated(s, pref, p, |s|, text)
    ensures Finishable(p) && Scan(s, pref) == Done(Finish(p, s, |s|), s)
  {
    hide RunDate, Finish, Render, RunTime, Scan;
    ScanIs(s, pref, p, |s|, text);
    if p.stateTime.TimeStart? {
      assert SkipSpaces(s, |s|) == |s|;
      StartsAtEnd(p, s);
    }
  }

  lemma StartsAtEnd(p: Parser, s: string)
    requires DateEndInv(p, s, |s|) && p.stateTime.TimeStart? && Untimed(p)
    ensures Finishable(p) && ScanTime(p, s, |s|) == Done(Finish(p, s, |s|), s)
  {
    hide Finish, Roles;
    assert SkipSpaces(s, |s|) == |s|;
    TimeFinishIs(p, s, |s|);
    assert p.CoalesceTime(|s|) == p;
  }

  lemma SettledAlone(s: string, pref: bool, p: Parser, text: string)
    requires Dated(s, pref, p, |s|, text) && Settled(p, |s|)
    ensures Lays(Scan(s, pref), p, s, |s|, text, false)
  {
    hide RunDate, Finish, Render, Scan, Settled, DateEndInv;
    DateAlone(s, pref, p, text);
    FinishSettled(p, s, |s|);
    DlenIs(p, s, |s|);
  }

  /** Where the last switch only writes. */
  lemma FinishedAlone(s: string, pref: bool, p: Parser, text: string, u: Parser, text': string)
    requires Dated(s, pref, p, |s|, text) && (Finishable(p) ==> Finish(p, s, |s|) == Result(Some(u), None))
    requires SameBeginning(p, u) && !u.zulu && |u.layout| == u.dlen == |s| && Render(u.layout, s) == text'
    ensures Lays(Scan(s, pref), p, s, |s|, text', false)
  {
    hide RunDate, Finish, Render, Scan, DateEndInv;
    DateAlone(s, pref, p, text);
  }
}

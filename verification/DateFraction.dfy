// Fractions of a second behind a clock, and what may follow them.
module DateFraction {
  import opened DateText
  import opened DateParser
  import opened DateWalk
  import opened DateSpelling
  import opened DateClock
  import opened DateTail

  function Noughts(n: nat): (r: string)
    ensures |r| == n
  {
    seq(n, _ => '0')
  }

  lemma ZerosReads(l: seq<Cell>, s: string, a: string, f: string, back: string)
    requires Render(l, s) == a + f + back
    ensures |a| + |f| <= |l| && Render(Zeros(l, |a|, |f|), s) == a + Noughts(|f|) + back
  {
    var t, r := Render(l, s), Render(Zeros(l, |a|, |f|), s);
    assert |t| == |l|;
    forall k | 0 <= k < |l| ensures r[k] == (a + Noughts(|f|) + back)[k] {
      if k < |a| || |a| + |f| <= k { assert r[k] == t[k]; }
    }
  }

  lemma CoalesceFraction(u: Parser, i: int)
    requires FractionFits(u) && u.msi > 0 && u.mslen >= 0
    ensures u.CoalesceTime(i).layout ==
              if u.mslen > 0 then Zeros(u.CoalesceClock(i).layout, u.msi, u.mslen) else u.CoalesceClock(i).layout
  {}

  /** The end of a pass with a fraction: its digits become zeroes. */
  lemma FractionEnded(p: Parser, s: string, c: Clock, pre: string, w: Parser, i: nat, u: Parser, f: string, back: string)
    requires TimeInv(p, s, |pre|) && Settled(p, |s|) && c.Valid() && pre != ""
    requires RunTime(p, s, |pre|) == Break(w, s, i) && TimeEndInv(w, s, i) && !w.stateTime.TimeOffset?
    requires Finished(w, i) == u && Keeps(p, u, c, |pre|) && u.msi == |pre + c.Text()| + 1 && u.mslen == |f|
    requires |u.layout| == u.dlen && Render(u.layout, s) == pre + c.Text() + ("." + f + back)
    ensures Lays(Tailed(p, s, |pre|), p, s, u.dlen, pre + c.Laid() + ("." + Noughts(|f|) + back), u.stateTime.TimeZ?)
  {
    hide RunTime, TimeFinish, Finish, Finished, Write, Either, Zeros, Render, Roles, Clock.Laid, FractionFits;
    assert FractionFits(u) by { TextFits(u, s, pre, c, f, back); }
    TimeFinishIs(w, s, i);
    var v := u.CoalesceTime(i);
    assert Colons(c, c.Text());
    hide Clock.Text;
    ClockReads(u, i, s, c, pre, c.Text(), "." + f + back);
    assert Finishable(v) && SameBeginning(p, v) by { CoalesceKeeps(u, i); }
    CoalesceFraction(u, i);
    Dotted(pre + c.Laid(), f, back);
    Dotted(pre + c.Laid(), Noughts(|f|), back);
    ZerosReads(u.CoalesceClock(i).layout, s, pre + c.Laid() + ".", f, back);
    FinishSettled(v, s, i);
  }

  lemma TextFits(u: Parser, s: string, pre: string, c: Clock, f: string, back: string)
    requires u.msi == |pre + c.Text()| + 1 && u.mslen == |f| && Render(u.layout, s) == pre + c.Text() + ("." + f + back)
    ensures FractionFits(u)
  {
    assert |Render(u.layout, s)| == |u.layout|;
  }

  lemma Dotted(a: string, f: string, back: string)
    ensures a + ("." + f + back) == (a + ".") + f + back
  {}

  /** The same from a stage, with nothing that matters to the end of the string. */
  lemma FractionStageEnds(p: Parser, s: string, c: Clock, pre: string, w: Parser, i: nat, post: string, u: Parser, f: string,
                          back: string)
    requires Stage(p, s, c, pre, c.Text(), w, i, post) && StillAll(w, s, i, |s|) && !w.stateTime.TimeOffset?
    requires Finished(w, |s|) == u && Keeps(p, u, c, |pre|) && u.msi == |pre + c.Text()| + 1 && u.mslen == |f|
    requires |u.layout| == u.dlen && Render(u.layout, s) == pre + c.Text() + ("." + f + back)
    ensures c.Valid() && TimeInv(p, s, |pre|)
    ensures Lays(Tailed(p, s, |pre|), p, s, u.dlen, pre + c.Laid() + ("." + Noughts(|f|) + back), u.stateTime.TimeZ?)
  {
    hide RunTime, Lays, Tailed, TimeInv, TimeEndInv, Finished, StillAll, Render, Clock.Laid, Clock.Text, Keeps;
    TimeEnds(w, s, i);
    FractionEnded(p, s, c, pre, w, |s|, u, f, back);
  }

  // ---------------------------------------------------------------- the point

  /** The loop stands behind the point, before digits f. */
  ghost predicate AtFraction(p: Parser, s: string, c: Clock, pre: string, w: Parser, k: nat, f: string, rest: string) {
    && c.Valid() && Stage(p, s, c, pre, c.Text(), w, k, "." + f + rest) && w.stateTime.TimePeriod?
    && w.msi == k == |pre + c.Text()| + 1 && w.mslen == 0 && w.offseti == 0 && w.tzi == 0 && w.extra == 0 && w.dlen == |s|
    && k <= |s| && s[k..] == f + rest && Digits(f)
  }

  lemma PointBehind(p: Parser, s: string, c: Clock, pre: string, e: nat, f: string, rest: string) returns (w: Parser)
    requires Before(p, s, c, pre, e) && e <= |s| && s[e..] == "." + f + rest && Digits(f) && c.s != ""
    ensures AtFraction(p, s, c, pre, w, e + 1, f, rest)
  {
    hide RunTime, Before, TimeInv, TimeEndInv, Render, Colons, Roles, Commas, TimeFlowInv, Clock.Laid, Clock.Text, Either, Write;
    Enters(p, s, c, pre, e);
    assert s[e] == s[e..][0] && s[e + 1..] == s[e..][1..] == f + rest;
    w := Closed(p, c, |pre|).(stateTime := TimePeriod, msi := e + 1);
    TimeHop(Read(p, c, |pre|), s, e, e, w);
  }

  lemma FractionParts(p: Parser, s: string, c: Clock, pre: string, w: Parser, k: nat, f: string, rest: string)
    requires AtFraction(p, s, c, pre, w, k, f, rest)
    ensures c.Valid() && TimeInv(p, s, |pre|) && Stage(p, s, c, pre, c.Text(), w, k, "." + f + rest) && w.stateTime.TimePeriod?
    ensures w.msi == k == |pre + c.Text()| + 1 && w.mslen == 0 && w.offseti == 0 && w.tzi == 0 && w.dlen == |s| == |w.layout|
    ensures k + |f| + |rest| == |s| && s[k + |f|..] == rest && StillAll(w, s, k, k + |f|)
    ensures Keeps(p, w, c, |pre|) && !w.zulu && Render(w.layout, s) == pre + c.Text() + ("." + f + rest) && Colons(c, c.Text())
  {
    hide TimeInv, RunTime, Render, Clock.Text, Clock.Laid, Keeps, Colons, Digits;
    FractionBytes(s, k, f, rest);
    assert Keeps(p, w, c, |pre|) && !w.zulu by { StageParts(p, s, c, pre, c.Text(), w, k, "." + f + rest); KeepsZulu(p, w, c, |pre|); }
  }

  lemma KeepsZulu(p: Parser, w: Parser, c: Clock, j: nat)
    requires Keeps(p, w, c, j) && !w.stateTime.TimeZ?
    ensures !w.zulu
  {}

  lemma FractionBytes(s: string, k: nat, f: string, rest: string)
    requires k <= |s| && s[k..] == f + rest && Digits(f)
    ensures k + |f| + |rest| == |s| && s[k + |f|..] == rest && forall m :: k <= m < k + |f| ==> IsDigit(s[m])
  {
    assert s[k + |f|..] == s[k..][|f|..];
    assert s[k..k + |f|] == s[k..][..|f|] == f;
    DigitBytes(s, k, f);
  }

  /** Nothing follows. */
  lemma FractionAlone(p: Parser, s: string, c: Clock, pre: string, w: Parser, k: nat, f: string)
    requires AtFraction(p, s, c, pre, w, k, f, "")
    ensures c.Valid() && TimeInv(p, s, |pre|)
    ensures Lays(Tailed(p, s, |pre|), p, s, |s|, pre + c.Laid() + ("." + Noughts(|f|) + ""), false)
  {
    hide RunTime, Stage, AtFraction, Keeps, Lays, Tailed, TimeInv, TimeEndInv, Render, Roles, Commas, TimeFlowInv, Clock.Laid;
    hide Clock.Text, Either, Write, Zone.Text, Noughts;
    FractionParts(p, s, c, pre, w, k, f, "");
    var u := w.(mslen := |f|);
    StillKeeps(p, w, c, |pre|, u);
    FractionStageEnds(p, s, c, pre, w, k, "." + f + "", u, f, "");
  }

  /** A letter, as in 15:04:05.99Z, and anything behind it: it is left as it is, and Z does not
      mean UTC. */
  lemma FractionWord(p: Parser, s: string, c: Clock, pre: string, w: Parser, k: nat, f: string, rest: string)
    requires AtFraction(p, s, c, pre, w, k, f, rest) && rest != "" && IsLetter(rest[0])
    ensures c.Valid() && TimeInv(p, s, |pre|)
    ensures Lays(Tailed(p, s, |pre|), p, s, |s|, pre + c.Laid() + ("." + Noughts(|f|) + rest), false)
  {
    hide RunTime, Stage, AtFraction, Keeps, Lays, Tailed, TimeInv, TimeEndInv, Render, Roles, Commas, TimeFlowInv, Clock.Laid;
    hide Clock.Text, Either, Write, Zone.Text, Noughts;
    FractionParts(p, s, c, pre, w, k, f, rest);
    var g := k + |f|;
    assert s[g] == s[g..][0];
    var u := w.(mslen := |f|, stateTime := TimePeriodWsAlpha);
    StillKeeps(p, w, c, |pre|, u);
    StageGoesOn(p, s, c, pre, c.Text(), w, k, "." + f + rest, g, u);
    FractionStageEnds(p, s, c, pre, u, g + 1, "." + f + rest, u, f, rest);
  }

  // ---------------------------------------------------------------- an offset right behind

  lemma FractionSign(p: Parser, s: string, c: Clock, pre: string, w: Parser, k: nat, f: string, rest: string) returns (u: Parser)
    requires AtFraction(p, s, c, pre, w, k, f, rest) && rest != "" && (rest[0] == '+' || rest[0] == '-')
    ensures c.Valid() && k + |f| + |rest| == |s| && s[k + |f|..] == rest && Stage(p, s, c, pre, c.Text(), u, k + |f| + 1, "." + f + rest)
    ensures Keeps(p, u, c, |pre|) && !u.zulu && u.dlen == |s| == |u.layout| && u.stateTime.TimePeriodOffset? && u.mslen == |f|
    ensures u.msi == |pre + c.Text()| + 1 && u.offseti == k + |f| == |pre + c.Text() + ("." + f)|
    ensures Render(u.layout, s) == pre + c.Text() + ("." + f + rest) && Colons(c, c.Text())
  {
    hide RunTime, Stage, AtFraction, Keeps, Lays, Tailed, TimeInv, TimeEndInv, Render, Roles, Commas, TimeFlowInv, Clock.Laid;
    hide Clock.Text, Either, Write, Zone.Text, Noughts;
    FractionParts(p, s, c, pre, w, k, f, rest);
    var g := k + |f|;
    assert s[g] == s[g..][0];
    u := w.(mslen := |f|, offseti := g, stateTime := TimePeriodOffset);
    StillKeeps(p, w, c, |pre|, u);
    StageGoesOn(p, s, c, pre, c.Text(), w, k, "." + f + rest, g, u);
  }

  /** Of two digits alone no offset is laid out here. */
  function LongLaid(z: Zone): (r: string)
    requires z.Valid()
    ensures |r| == |z.Text()|
  {
    if z.m == "" then z.Text() else z.Laid()
  }

  /** 15:04:05.99+0100 */
  lemma FractionOffset(p: Parser, s: string, c: Clock, pre: string, w: Parser, k: nat, f: string, z: Zone)
    requires AtFraction(p, s, c, pre, w, k, f, z.Text()) && z.Valid()
    ensures c.Valid() && TimeInv(p, s, |pre|)
    ensures Lays(Tailed(p, s, |pre|), p, s, |s|, pre + c.Laid() + ("." + Noughts(|f|) + LongLaid(z)), false)
  {
    hide RunTime, Stage, AtFraction, Keeps, Lays, Tailed, TimeInv, TimeEndInv, Render, Roles, Commas, TimeFlowInv, Clock.Laid;
    hide Clock.Text, Either, Write, Zone.Text, Noughts;
    Signed(z);
    var u := FractionSign(p, s, c, pre, w, k, f, z.Text());
    var g := k + |f|;
    ZoneBytes(z, s, g, |s|);
    hide Zone.Valid, LongLaid;
    if z.colon {
      var v := FractionColon(p, s, c, pre, u, g, f, z.Text());
      FractionOffsetEnds(p, s, c, pre, v, g + 4, f, "." + f + z.Text(), "." + f, z);
    } else {
      FractionOffsetEnds(p, s, c, pre, u, g + 1, f, "." + f + z.Text(), "." + f, z);
    }
  }

  lemma FractionColon(p: Parser, s: string, c: Clock, pre: string, u: Parser, g: nat, f: string, rest: string) returns (v: Parser)
    requires Stage(p, s, c, pre, c.Text(), u, g + 1, "." + f + rest) && u.stateTime.TimePeriodOffset?
    requires g + 3 < |s| && s[g + 3] == ':' && forall k :: g < k < g + 3 ==> IsDigit(s[k])
    ensures Stage(p, s, c, pre, c.Text(), v, g + 4, "." + f + rest) && v == u.(stateTime := TimePeriodOffsetColon)
  {
    hide RunTime, Stage, AtFraction, Keeps, Lays, Tailed, TimeInv, TimeEndInv, Render, Roles, Commas, TimeFlowInv, Clock.Laid;
    hide Clock.Text, Either, Write, Zone.Text, Noughts;
    v := u.(stateTime := TimePeriodOffsetColon);
    StageParts(p, s, c, pre, c.Text(), u, g + 1, "." + f + rest);
    StillKeeps(p, u, c, |pre|, v);
    StageGoesOn(p, s, c, pre, c.Text(), u, g + 1, "." + f + rest, g + 3, v);
  }

  lemma FractionOffsetEnds(p: Parser, s: string, c: Clock, pre: string, u: Parser, i: nat, f: string, post: string, front: string,
                           z: Zone)
    requires z.Valid() && Stage(p, s, c, pre, c.Text(), u, i, post) && StillAll(u, s, i, |s|) && post == front + z.Text()
    requires u.stateTime == if z.colon then TimePeriodOffsetColon else TimePeriodOffset
    requires front == "." + f && u.dlen == |s| == |u.layout| && u.mslen == |f| && u.msi == |pre + c.Text()| + 1
    requires u.offseti == |pre + c.Text() + front|
    ensures c.Valid() && TimeInv(p, s, |pre|)
    ensures Lays(Tailed(p, s, |pre|), p, s, |s|, pre + c.Laid() + ("." + Noughts(|f|) + LongLaid(z)), false)
  {
    hide RunTime, Stage, AtFraction, Keeps, Lays, Tailed, TimeInv, TimeEndInv, Render, Roles, Commas, TimeFlowInv, Clock.Laid;
    hide Clock.Text, Either, Write, Zone.Text, Noughts;
    StageParts(p, s, c, pre, c.Text(), u, i, post);
    var x := Finished(u, |s|);
    StillKeeps(p, u, c, |pre|, x);
    NothingBack(z.Text(), "");
    NothingBack("", z.Text());
    if z.m != "" {
      SpliceTail(u.layout, s, pre + c.Text(), front, z.Text(), "", z.Laid());
    } else {
      assert x == u by { TooLong(u.layout, u.offseti, "-0700"); }
    }
    FractionStageEnds(p, s, c, pre, u, i, post, x, f, LongLaid(z));
  }

  lemma TooLong(l: seq<Cell>, a: nat, v: string)
    requires |l| < a + |v|
    ensures Write(l, a, v) == l
  {}

  /** 15:04:05.99+01:00 CET: what is behind the space is left as it is. */
  lemma FractionOffsetThen(p: Parser, s: string, c: Clock, pre: string, w: Parser, k: nat, f: string, z: Zone, rest: string)
    requires AtFraction(p, s, c, pre, w, k, f, z.Text() + (" " + rest)) && z.Valid() && z.colon
    ensures c.Valid() && TimeInv(p, s, |pre|)
    ensures Lays(Tailed(p, s, |pre|), p, s, |s|, pre + c.Laid() + ("." + Noughts(|f|) + ("-07:00" + (" " + rest))), false)
  {
    hide RunTime, Stage, AtFraction, Keeps, Lays, Tailed, TimeInv, TimeEndInv, Render, Roles, Commas, TimeFlowInv, Clock.Laid;
    hide Clock.Text, Either, Write, Zone.Text, Noughts;
    var t := z.Text() + (" " + rest);
    Signed(z);
    assert t[0] == z.Text()[0];
    var u := FractionSign(p, s, c, pre, w, k, f, t);
    var g := k + |f|;
    OffsetBytes(s, g, z, rest);
    var v := FractionColon(p, s, c, pre, u, g, f, t);
    FractionColonSpace(p, s, c, pre, v, g, f, z, rest);
  }

  lemma FractionColonSpace(p: Parser, s: string, c: Clock, pre: string, v: Parser, g: nat, f: string, z: Zone, rest: string)
    requires Stage(p, s, c, pre, c.Text(), v, g + 4, "." + f + (z.Text() + (" " + rest))) && z.Valid() && z.colon
    requires v.stateTime.TimePeriodOffsetColon? && v.msi == |pre + c.Text()| + 1 && v.mslen == |f| && v.dlen == |s|
    requires v.offseti == g == |pre + c.Text() + ("." + f)|
    requires g + 6 < |s| && s[g + 6] == ' ' && forall k :: g + 4 <= k < g + 6 ==> IsDigit(s[k])
    ensures c.Valid() && TimeInv(p, s, |pre|)
    ensures Lays(Tailed(p, s, |pre|), p, s, |s|, pre + c.Laid() + ("." + Noughts(|f|) + ("-07:00" + (" " + rest))), false)
  {
    hide RunTime, Stage, AtFraction, Keeps, Lays, Tailed, TimeInv, TimeEndInv, Render, Roles, Commas, TimeFlowInv, Clock.Laid;
    hide Clock.Text, Either, Write, Zone.Text, Noughts;
    var t, post := z.Text() + (" " + rest), "." + f + ("-07:00" + (" " + rest));
    StageParts(p, s, c, pre, c.Text(), v, g + 4, "." + f + t);
    var x := v.(stateTime := TimePeriodOffsetColonWs, tzi := g + 7, layout := Write(v.layout, g, "-07:00"));
    StillKeeps(p, v, c, |pre|, x);
    SpliceTail(v.layout, s, pre + c.Text(), "." + f, z.Text(), " " + rest, "-07:00");
    StageWrites(p, s, c, pre, c.Text(), v, g + 4, "." + f + t, g + 6, x, c.Text(), post);
    FractionStageEnds(p, s, c, pre, x, g + 7, post, x, f, "-07:00" + (" " + rest));
  }

  // ---------------------------------------------------------------- a space behind the fraction

  ghost predicate AtGap(p: Parser, s: string, c: Clock, pre: string, w: Parser, i: nat, f: string, t: string) {
    && c.Valid() && Stage(p, s, c, pre, c.Text(), w, i, "." + f + (" " + t)) && Keeps(p, w, c, |pre|) && !w.zulu
    && w.stateTime.TimePeriodWs? && w.msi == |pre + c.Text()| + 1 && w.mslen == |f| && w.offseti == 0 && w.tzi == 0
    && w.dlen == |s| == |w.layout| && i == w.msi + |f| + 1 == |pre + c.Text() + ("." + f + " ")| && i + |t| == |s| && s[i..] == t
    && Render(w.layout, s) == pre + c.Text() + ("." + f + (" " + t)) && Colons(c, c.Text())
  }

  lemma FractionSpace(p: Parser, s: string, c: Clock, pre: string, w: Parser, k: nat, f: string, t: string) returns (u: Parser)
    requires AtFraction(p, s, c, pre, w, k, f, " " + t)
    ensures AtGap(p, s, c, pre, u, k + |f| + 1, f, t)
  {
    hide RunTime, Stage, AtFraction, Keeps, Lays, Tailed, TimeInv, TimeEndInv, Render, Roles, Commas, TimeFlowInv, Clock.Laid;
    hide Clock.Text, Either, Write, Zone.Text, Noughts;
    FractionParts(p, s, c, pre, w, k, f, " " + t);
    var g := k + |f|;
    assert s[g] == s[g..][0] && s[g + 1..] == s[g..][1..];
    u := w.(mslen := |f|, stateTime := TimePeriodWs);
    StillKeeps(p, w, c, |pre|, u);
    StageGoesOn(p, s, c, pre, c.Text(), w, k, "." + f + (" " + t), g, u);
  }

  /** A letter, and anything behind it: the time loop is left at once. */
  lemma GapWord(p: Parser, s: string, c: Clock, pre: string, w: Parser, i: nat, f: string, t: string)
    requires AtGap(p, s, c, pre, w, i, f, t) && t != "" && IsLetter(t[0])
    ensures c.Valid() && TimeInv(p, s, |pre|)
    ensures Lays(Tailed(p, s, |pre|), p, s, |s|, pre + c.Laid() + ("." + Noughts(|f|) + (" " + t)), false)
  {
    hide RunTime, Keeps, Lays, Tailed, TimeInv, TimeEndInv, Render, Roles, Commas, TimeFlowInv, Clock.Laid;
    hide Clock.Text, Either, Write, Noughts;
    assert s[i] == s[i..][0];
    var u := w.(offseti := i, stateTime := TimePeriodWsOffsetWsAlpha);
    StillKeeps(p, w, c, |pre|, u);
    TimeLeaves(w, s, i, i, u);
    FractionEnded(p, s, c, pre, u, i, u, f, " " + t);
  }

  /** Digits: they are left as they are. */
  lemma GapDigits(p: Parser, s: string, c: Clock, pre: string, w: Parser, i: nat, f: string, t: string)
    requires AtGap(p, s, c, pre, w, i, f, t) && t != "" && Digits(t)
    ensures c.Valid() && TimeInv(p, s, |pre|)
    ensures Lays(Tailed(p, s, |pre|), p, s, |s|, pre + c.Laid() + ("." + Noughts(|f|) + (" " + t)), false)
  {
    hide RunTime, Keeps, Stage, Lays, Tailed, TimeInv, TimeEndInv, Render, Roles, Commas, TimeFlowInv, Clock.Laid;
    hide Clock.Text, Either, Write, Noughts;
    assert s[i..i + |t|] == s[i..];
    DigitBytes(s, i, t);
    var u := w.(offseti := i);
    StillKeeps(p, w, c, |pre|, u);
    StageGoesOn(p, s, c, pre, c.Text(), w, i, "." + f + (" " + t), i, u);
    FractionStageEnds(p, s, c, pre, u, i + 1, "." + f + (" " + t), u, f, " " + t);
  }

  // ---------------------------------------------------------------- a space and an offset

  /** The loop stands behind the sign of an offset t. */
  ghost predicate AtOffset(p: Parser, s: string, c: Clock, pre: string, w: Parser, i: nat, f: string, t: string) {
    && c.Valid() && Stage(p, s, c, pre, c.Text(), w, i + 1, "." + f + " " + t) && Keeps(p, w, c, |pre|) && !w.zulu
    && w.stateTime.TimePeriodWsOffset? && w.msi == |pre + c.Text()| + 1 && w.mslen == |f| && w.tzi == 0
    && w.offseti == i == |pre + c.Text() + ("." + f + " ")| && w.dlen == |s| == |w.layout| && i + |t| == |s| && s[i..] == t
    && Render(w.layout, s) == pre + c.Text() + ("." + f + " " + t) && Colons(c, c.Text())
  }

  lemma GapSign(p: Parser, s: string, c: Clock, pre: string, w: Parser, i: nat, f: string, t: string) returns (u: Parser)
    requires AtGap(p, s, c, pre, w, i, f, t) && t != "" && (t[0] == '+' || t[0] == '-')
    ensures AtOffset(p, s, c, pre, u, i, f, t) && TimeInv(p, s, |pre|)
  {
    hide RunTime, Keeps, Stage, Lays, Tailed, TimeInv, TimeEndInv, Render, Roles, Commas, TimeFlowInv, Clock.Laid;
    hide Clock.Text, Either, Write, Noughts;
    assert s[i] == s[i..][0];
    u := w.(offseti := i, stateTime := TimePeriodWsOffset);
    StillKeeps(p, w, c, |pre|, u);
    StageGoesOn(p, s, c, pre, c.Text(), w, i, "." + f + (" " + t), i, u);
    StageParts(p, s, c, pre, c.Text(), u, i + 1, "." + f + (" " + t));
    Regroup("." + f, " ", t);
  }

  lemma GapColon(p: Parser, s: string, c: Clock, pre: string, w: Parser, i: nat, f: string, z: Zone, rest: string) returns (u: Parser)
    requires AtOffset(p, s, c, pre, w, i, f, z.Text() + rest) && z.Valid() && z.colon
    ensures c.Valid() && TimeInv(p, s, |pre|) && u == w.(stateTime := TimePeriodWsOffsetColon) && Keeps(p, u, c, |pre|)
    ensures Stage(p, s, c, pre, c.Text(), u, i + 4, "." + f + " " + (z.Text() + rest))
    ensures i + 6 + |rest| == |s| && s[i + 6..] == rest && forall k :: i + 4 <= k < i + 6 ==> IsDigit(s[k])
  {
    hide RunTime, Keeps, Stage, Lays, Tailed, TimeInv, TimeEndInv, Render, Roles, Commas, TimeFlowInv, Clock.Laid;
    hide Clock.Text, Either, Write, Noughts, Zone.Text;
    var t := z.Text() + rest;
    assert s[i..i + 6] == s[i..][..6] == z.Text() && s[i + 6..] == s[i..][6..];
    ZoneBytes(z, s, i, i + 6);
    u := w.(stateTime := TimePeriodWsOffsetColon);
    StillKeeps(p, w, c, |pre|, u);
    StageParts(p, s, c, pre, c.Text(), w, i + 1, "." + f + " " + t);
    StageGoesOn(p, s, c, pre, c.Text(), w, i + 1, "." + f + " " + t, i + 3, u);
  }

  /** 15:04:05.99 +01:00: with a colon and nothing behind it, an offset is not laid out. */
  lemma GapOffsetColon(p: Parser, s: string, c: Clock, pre: string, w: Parser, i: nat, f: string, z: Zone)
    requires AtOffset(p, s, c, pre, w, i, f, z.Text()) && z.Valid() && z.colon
    ensures c.Valid() && TimeInv(p, s, |pre|)
    ensures Lays(Tailed(p, s, |pre|), p, s, |s|, pre + c.Laid() + ("." + Noughts(|f|) + (" " + z.Text())), false)
  {
    hide RunTime, Keeps, Stage, Lays, Tailed, TimeInv, TimeEndInv, Render, Roles, Commas, TimeFlowInv, Clock.Laid;
    hide Clock.Text, Either, Write, Noughts, Zone.Text;
    NothingBack("", z.Text());
    var u := GapColon(p, s, c, pre, w, i, f, z, "");
    Regroup("." + f, " ", z.Text());
    FractionStageEnds(p, s, c, pre, u, i + 4, "." + f + " " + z.Text(), u, f, " " + z.Text());
  }

  lemma GapColonSpace(p: Parser, s: string, c: Clock, pre: string, w: Parser, i: nat, f: string, z: Zone, name: string)
    returns (v: Parser)
    requires AtOffset(p, s, c, pre, w, i, f, z.Text() + (" " + name)) && z.Valid() && z.colon && name != ""
    ensures c.Valid() && TimeInv(p, s, |pre|) && i + 7 + |name| == |s| && s[i + 7] == name[0]
    ensures Stage(p, s, c, pre, c.Text(), v, i + 7, "." + f + " -07:00" + (" " + name))
    ensures v == w.(stateTime := TimePeriodWsOffsetColon, layout := v.layout) && Keeps(p, v, c, |pre|)
    ensures |v.layout| == v.dlen && Render(v.layout, s) == pre + c.Text() + ("." + f + " -07:00" + (" " + name))
  {
    hide RunTime, Keeps, Stage, Lays, Tailed, TimeInv, TimeEndInv, Render, Roles, Commas, TimeFlowInv, Clock.Laid;
    hide Clock.Text, Either, Write, Noughts, Zone.Text;
    var t := z.Text() + (" " + name);
    var u := GapColon(p, s, c, pre, w, i, f, z, " " + name);
    assert s[i + 6] == s[i + 6..][0] && s[i + 7] == s[i + 6..][1];
    v := u.Set(i, "-07:00");
    StillKeeps(p, u, c, |pre|, v);
    SpliceTail(w.layout, s, pre + c.Text(), "." + f + " ", z.Text(), " " + name, "-07:00");
    ColonName(f, name);
    StageWrites(p, s, c, pre, c.Text(), u, i + 4, "." + f + " " + t, i + 6, v, c.Text(), "." + f + " -07:00" + (" " + name));
  }

  /** 15:04:05.99 +01:00 CET */
  lemma GapOffsetColonName(p: Parser, s: string, c: Clock, pre: string, w: Parser, i: nat, f: string, z: Zone, name: string)
    requires AtOffset(p, s, c, pre, w, i, f, z.Text() + (" " + name)) && z.Valid() && z.colon && name != "" && IsLetter(name[0])
    ensures c.Valid() && TimeInv(p, s, |pre|)
    ensures Lays(Tailed(p, s, |pre|), p, s, |s|, pre + c.Laid() + ("." + Noughts(|f|) + (" -07:00 " + NameLaid(name))), false)
  {
    hide RunTime, Keeps, Stage, Lays, Tailed, TimeInv, TimeEndInv, Render, Roles, Commas, TimeFlowInv, Clock.Laid;
    hide Clock.Text, Either, Write, Noughts, Zone.Text;
    var v := GapColonSpace(p, s, c, pre, w, i, f, z, name);
    ColonName(f, name);
    ColonName(f, NameLaid(name));
    var post := "." + f + " -07:00" + (" " + name);
    var x := v.(tzi := i + 7, stateTime := TimePeriodWsOffsetColonAlpha);
    StillKeeps(p, v, c, |pre|, x);
    StageGoesOn(p, s, c, pre, c.Text(), v, i + 7, post, i + 7, x);
    var y := x.(tzlen := |name|, layout := Either(x.layout, i + 7, |name|, 3, "MST", 4, "MST "));
    StillKeeps(p, v, c, |pre|, y);
    assert i + 7 == |pre + c.Text() + ("." + f + " -07:00") + " "|;
    SpliceEnd(v.layout, s, pre + c.Text(), "." + f + " -07:00", name);
    FractionStageEnds(p, s, c, pre, x, i + 8, post, y, f, " -07:00 " + NameLaid(name));
  }

  lemma ColonName(f: string, name: string)
    ensures "." + f + " " + "-07:00" + (" " + name) == "." + f + " -07:00" + (" " + name) == "." + f + (" -07:00 " + name)
  {}

  /** 15:04:05.99 +0100 */
  lemma GapOffset(p: Parser, s: string, c: Clock, pre: string, w: Parser, i: nat, f: string, z: Zone)
    requires AtOffset(p, s, c, pre, w, i, f, z.Text()) && FourDigits(z)
    ensures c.Valid() && TimeInv(p, s, |pre|)
    ensures Lays(Tailed(p, s, |pre|), p, s, |s|, pre + c.Laid() + ("." + Noughts(|f|) + (" " + "-0700")), false)
  {
    hide RunTime, Keeps, Stage, Lays, Tailed, TimeInv, TimeEndInv, Render, Roles, Commas, TimeFlowInv, Clock.Laid;
    hide Clock.Text, Either, Write, Noughts, Zone.Text;
    var t := z.Text();
    ZoneBytes(z, s, i, |s|);
    Regroup("." + f, " ", t);
    var u := w.Set(i, "-0700");
    StillKeeps(p, w, c, |pre|, u);
    NothingBack(t, "");
    NothingBack("", t);
    SpliceTail(w.layout, s, pre + c.Text(), "." + f + " ", t, "", "-0700");
    Regroup("." + f, " ", "-0700");
    FractionStageEnds(p, s, c, pre, w, i + 1, "." + f + " " + t, u, f, " " + "-0700");
  }

  /** The loop stands behind the space that follows an offset of four digits. */
  ghost predicate AtGapZoned(p: Parser, s: string, c: Clock, pre: string, w: Parser, g: nat, f: string, rest: string) {
    && c.Valid() && Stage(p, s, c, pre, c.Text(), w, g, "." + f + " -0700" + (" " + rest)) && Keeps(p, w, c, |pre|) && !w.zulu
    && w.stateTime.TimePeriodWsOffset? && w.msi == |pre + c.Text()| + 1 && w.mslen == |f| && w.tzi == 0
    && w.offseti == |pre + c.Text() + ("." + f + " ")| && g == w.offseti + 6 && w.dlen == |s| == |w.layout|
    && g + |rest| == |s| && s[g..] == rest
    && Render(w.layout, s) == pre + c.Text() + ("." + f + " -0700" + (" " + rest)) && Colons(c, c.Text())
  }

  lemma GapOffsetThen(p: Parser, s: string, c: Clock, pre: string, w: Parser, i: nat, f: string, z: Zone, rest: string)
    returns (u: Parser)
    requires AtOffset(p, s, c, pre, w, i, f, z.Text() + (" " + rest)) && FourDigits(z)
    ensures AtGapZoned(p, s, c, pre, u, i + 6, f, rest) && TimeInv(p, s, |pre|)
  {
    hide RunTime, Keeps, Stage, Lays, Tailed, TimeInv, TimeEndInv, Render, Roles, Commas, TimeFlowInv, Clock.Laid;
    hide Clock.Text, Either, Write, Noughts, Zone.Text;
    var t := z.Text() + (" " + rest);
    OffsetBytes(s, i, z, rest);
    u := w.Set(i, "-0700");
    StillKeeps(p, w, c, |pre|, u);
    SpliceTail(w.layout, s, pre + c.Text(), "." + f + " ", z.Text(), " " + rest, "-0700");
    MinusZone(f);
    StageWrites(p, s, c, pre, c.Text(), w, i + 1, "." + f + " " + t, i + 5, u, c.Text(), "." + f + " -0700" + (" " + rest));
    StageParts(p, s, c, pre, c.Text(), u, i + 6, "." + f + " -0700" + (" " + rest));
  }

  lemma MinusZone(f: string)
    ensures "." + f + " " + "-0700" == "." + f + " -0700" == "." + f + (" " + "-0700")
  {}

  lemma Spacing(f: string, rest: string)
    ensures "." + f + " -0700" + (" " + rest) == "." + f + (" -0700" + (" " + rest))
  {}

  /** +0100 CET: a letter and anything behind it without an equals sign is left as it is. */
  lemma GapOffsetWord(p: Parser, s: string, c: Clock, pre: string, w: Parser, g: nat, f: string, rest: string)
    requires AtGapZoned(p, s, c, pre, w, g, f, rest) && rest != "" && IsLetter(rest[0]) && '=' !in rest
    ensures c.Valid() && TimeInv(p, s, |pre|)
    ensures Lays(Tailed(p, s, |pre|), p, s, |s|, pre + c.Laid() + ("." + Noughts(|f|) + (" -0700" + (" " + rest))), false)
  {
    hide RunTime, Keeps, Stage, Lays, Tailed, TimeInv, TimeEndInv, Render, Roles, Commas, TimeFlowInv, Clock.Laid;
    hide Clock.Text, Either, Write, Noughts;
    assert s[g] == s[g..][0];
    NoByte(s, g, rest, '=');
    var u := w.(stateTime := TimePeriodWsOffsetWsAlpha);
    StillKeeps(p, w, c, |pre|, u);
    StageGoesOn(p, s, c, pre, c.Text(), w, g, "." + f + " -0700" + (" " + rest), g, u);
    Spacing(f, rest);
    FractionStageEnds(p, s, c, pre, u, g + 1, "." + f + " -0700" + (" " + rest), u, f, " -0700" + (" " + rest));
  }

  lemma NoByte(s: string, i: nat, t: string, b: char)
    requires i <= |s| && s[i..] == t && b !in t
    ensures forall k :: i <= k < |s| ==> s[k] != b
  {
    forall k | i <= k < |s| ensures s[k] != b { assert s[k] == t[k - i]; }
  }

  /** +0300 +03: the second zone is cut off, with the space before it. */
  lemma GapOffsetTwice(p: Parser, s: string, c: Clock, pre: string, w: Parser, g: nat, f: string, rest: string)
    requires AtGapZoned(p, s, c, pre, w, g, f, rest) && rest != "" && (rest[0] == '+' || rest[0] == '-') && Digits(rest[1..])
    ensures c.Valid() && TimeInv(p, s, |pre|)
    ensures Lays(Tailed(p, s, |pre|), p, s, |s| - 1 - |rest|, pre + c.Laid() + ("." + Noughts(|f|) + " -0700"), false)
  {
    hide RunTime, Keeps, Stage, Lays, Tailed, TimeInv, TimeEndInv, Render, Roles, Commas, TimeFlowInv, Clock.Laid;
    hide Clock.Text, Either, Write, Noughts;
    assert s[g] == s[g..][0];
    assert s[g + 1..g + 1 + |rest[1..]|] == s[g..][1..] == rest[1..];
    DigitBytes(s, g + 1, rest[1..]);
    var post := "." + f + " -0700";
    var u := w.(extra := g - 1, layout := w.layout[..g - 1], dlen := g - 1);
    StillKeeps(p, w, c, |pre|, u);
    CutReads(w.layout, s, pre + c.Text(), post, " " + rest);
    StageWrites(p, s, c, pre, c.Text(), w, g, post + (" " + rest), g, u, c.Text(), post);
    GapEndsAgain(p, s, c, pre, u, g + 1, f);
  }

  lemma GapEndsAgain(p: Parser, s: string, c: Clock, pre: string, w: Parser, i: nat, f: string)
    requires c.Valid() && Stage(p, s, c, pre, c.Text(), w, i, "." + f + " -0700") && StillAll(w, s, i, |s|) && !w.zulu
    requires w.stateTime.TimePeriodWsOffset? && w.msi == |pre + c.Text()| + 1 && w.mslen == |f|
    requires w.offseti == |pre + c.Text() + ("." + f + " ")|
    ensures TimeInv(p, s, |pre|)
    ensures Lays(Tailed(p, s, |pre|), p, s, w.dlen, pre + c.Laid() + ("." + Noughts(|f|) + " -0700"), false)
  {
    hide RunTime, Keeps, Stage, Lays, Tailed, TimeInv, TimeEndInv, Render, Roles, Commas, TimeFlowInv, Clock.Laid;
    hide Clock.Text, Either, Write, Noughts;
    StageParts(p, s, c, pre, c.Text(), w, i, "." + f + " -0700");
    var u := w.Set(w.offseti, "-0700");
    StillKeeps(p, w, c, |pre|, u);
    MinusZone(f);
    NothingBack("-0700", "");
    SpliceTail(w.layout, s, pre + c.Text(), "." + f + " ", "-0700", "", "-0700");
    FractionStageEnds(p, s, c, pre, w, i, "." + f + " -0700", u, f, " -0700");
  }

  /** +0300 MSK m=+0.001: the monotonic reading is cut off. */
  lemma GapMonotonic(p: Parser, s: string, c: Clock, pre: string, w: Parser, g: nat, f: string, name: string, rest: string)
    requires AtGapZoned(p, s, c, pre, w, g, f, name + (" m=" + rest)) && name != "" && IsLetter(name[0])
    requires '=' !in name && '=' !in rest
    ensures c.Valid() && TimeInv(p, s, |pre|)
    ensures Lays(Tailed(p, s, |pre|), p, s, |s| - 3 - |rest|, pre + c.Laid() + ("." + Noughts(|f|) + (" -0700" + (" " + name))), false)
  {
    hide RunTime, Keeps, Stage, Lays, Tailed, TimeInv, TimeEndInv, Render, Roles, Commas, TimeFlowInv, Clock.Laid;
    hide Clock.Text, Either, Write, Noughts, Zone.Text;
    var tail := name + (" m=" + rest);
    var post := "." + f + " -0700" + (" " + tail);
    var e := g + |name|;
    EqualsBytes(s, g, name, rest);
    var u := w.(stateTime := TimePeriodWsOffsetWsAlpha);
    StillKeeps(p, w, c, |pre|, u);
    StageGoesOn(p, s, c, pre, c.Text(), w, g, post, g, u);
    var v := u.(extra := e, layout := w.layout[..e], dlen := e);
    StillKeeps(p, w, c, |pre|, v);
    CutName(w.layout, s, pre + c.Text(), "." + f + " -0700", name, " m=" + rest);
    StageWrites(p, s, c, pre, c.Text(), u, g + 1, post, e + 2, v, c.Text(), "." + f + " -0700" + (" " + name));
    Spacing(f, name);
    FractionStageEnds(p, s, c, pre, v, e + 3, "." + f + " -0700" + (" " + name), v, f, " -0700" + (" " + name));
  }

  lemma EqualsBytes(s: string, g: nat, name: string, rest: string)
    requires g <= |s| && s[g..] == name + (" m=" + rest) && name != "" && '=' !in name && '=' !in rest
    ensures var e := g + |name|;
            && e + 3 + |rest| == |s| && s[g] == name[0] && s[e + 1] == 'm' && s[e + 2] == '='
            && (forall k :: g <= k < e + 2 ==> s[k] != '=') && (forall k :: e + 3 <= k < |s| ==> s[k] != '=')
  {
    var t, e := s[g..], g + |name|;
    assert forall k :: g <= k < |s| ==> s[k] == t[k - g];
    forall k | g <= k < e + 2 ensures s[k] != '=' {
      if k < e { assert t[k - g] == name[k - g]; }
    }
    forall k | e + 3 <= k < |s| ensures s[k] != '=' { assert t[k - g] == rest[k - (e + 3)]; }
  }

  // ---------------------------------------------------------------- a comma or a colon for the point

  /** A comma starts the parse over, with a point in its place. */
  lemma CommaBehind(p: Parser, s: string, c: Clock, pre: string, e: nat)
    requires Before(p, s, c, pre, e) && e < |s| && s[e] == ','
    ensures Tailed(p, s, |pre|) == Again(s[e := '.'], true, s)
  {
    hide RunTime, TimeStep, Before, TimeInv, TimeEndInv, Render, Colons, Roles, Commas, TimeFlowInv, Clock.Laid, Clock.Text, Either, Write;
    Enters(p, s, c, pre, e);
    var q := Read(p, c, |pre|);
    TimeStepTurns(q, s, e);
    assert TimeTurn(q, s, e) == Restart(s[e := '.'], true, s);
    OneTimeStep(q, s, e);
  }

  lemma OneTimeStep(q: Parser, s: string, i: nat)
    requires TimeAt(q, s, i)
    ensures var f := TimeStep(q, s, i); RunTime(q, s, i) == if f.Next? then RunTime(f.p, f.ds, f.i) else f
  {
    hide TimeStep, Roles, Commas;
  }

  /** The parser behind a third colon, which becomes a point. */
  function Pointed(q: Parser, e: nat): Parser {
    q.(seclen := e - q.seci, msi := e + 1, layout := Write(Write(q.layout, q.seci, "05"), e, "."))
  }

  lemma ThirdColonRun(p: Parser, s: string, c: Clock, pre: string, e: nat, f: string, rest: string)
    requires Before(p, s, c, pre, e) && e <= |s| && s[e..] == ":" + f + rest && Digits(f) && c.s != ""
    ensures var w, d, k := Pointed(Read(p, c, |pre|), e), s[e := '.'], e + 1 + |f|;
            && e < |s| == |d| && k + |rest| == |s| && s[k..] == d[k..] == rest
            && TimeInv(w, d, k) && RunTime(p, s, |pre|) == RunTime(w, d, k) && w.stateTime.TimeStart?
  {
    hide RunTime, TimeStep, Before, TimeInv, TimeEndInv, Render, Colons, Roles, Commas, TimeFlowInv, Clock.Laid, Clock.Text, Either, Write;
    Enters(p, s, c, pre, e);
    var q, w, d := Read(p, c, |pre|), Pointed(Read(p, c, |pre|), e), s[e := '.'];
    assert s[e] == s[e..][0] && s[e + 1..] == s[e..][1..] == f + rest;
    FractionBytes(s, e + 1, f, rest);
    TimeStepTurns(q, s, e);
    assert TimeTurn(q, s, e) == Next(w, d, e + 1);
    OneTimeStep(q, s, e);
    NextIsTimed(q, s, e, w, d);
    TimePasses(w, d, e + 1, e + 1 + |f|);
    assert s[e + 1 + |f|..] == d[e + 1 + |f|..];
  }

  lemma NextIsTimed(q: Parser, s: string, i: nat, w: Parser, d: string)
    requires TimeAt(q, s, i) && TimeStep(q, s, i) == Next(w, d, i + 1)
    ensures TimeInv(w, d, i + 1)
  {
    hide TimeStep, Roles, TimeInv, Commas;
  }

  /** The clock with "05", or the half of it that fits, for its seconds. */
  function FiveSeconds(c: Clock): string { c.h + ":" + c.m + ":" + if |c.s| == 2 then "05" else "0" }

  lemma PointedReads(p: Parser, s: string, c: Clock, pre: string, e: nat, f: string, rest: string)
    requires Before(p, s, c, pre, e) && e <= |s| && s[e..] == ":" + f + rest && c.s != ""
    ensures c.Valid() && Colons(c, FiveSeconds(c))
    ensures Render(Pointed(Read(p, c, |pre|), e).layout, s) == pre + FiveSeconds(c) + ("." + f + rest)
    ensures Keeps(p, Pointed(Read(p, c, |pre|), e), c, |pre|)
  {
    hide Render, Write, TimeInv, Before, Clock.Text, Clock.Laid, Colons, RunTime;
    Enters(p, s, c, pre, e);
    SecondsLast(c, |pre|);
    var l, hm := p.layout, c.h + ":" + c.m + ":";
    assert |pre + hm| == c.SecondAt(|pre|);
    if |c.s| == 2 { TwoReads(l, s, pre, hm, c.s, f, rest); } else { OneReads(l, s, pre, hm, c.s, f, rest); }
  }

  lemma SecondsLast(c: Clock, j: nat)
    requires c.Valid() && c.s != ""
    ensures c.Text() == (c.h + ":" + c.m + ":") + c.s && j + |c.Text()| == c.SecondAt(j) + |c.s|
    ensures Colons(c, FiveSeconds(c))
  {}

  lemma TwoReads(l: seq<Cell>, s: string, pre: string, hm: string, w: string, f: string, rest: string)
    requires |w| == 2 && Render(l, s) == pre + (hm + w) + (":" + f + rest)
    ensures Render(Write(Write(l, |pre + hm|, "05"), |pre + hm| + 2, "."), s) == pre + (hm + "05") + ("." + f + rest)
  {
    hide Render, Write;
    ColonWords(pre, hm, w, f, rest);
    ColonWords(pre, hm, "05", f, rest);
    WriteReads(l, pre + hm, w, ":" + f + rest, s, "05");
    WriteReads(Write(l, |pre + hm|, "05"), pre + hm + "05", ":", f + rest, s, ".");
  }

  lemma OneReads(l: seq<Cell>, s: string, pre: string, hm: string, w: string, f: string, rest: string)
    requires |w| == 1 && Render(l, s) == pre + (hm + w) + (":" + f + rest)
    ensures Render(Write(Write(l, |pre + hm|, "05"), |pre + hm| + 1, "."), s) == pre + (hm + "0") + ("." + f + rest)
  {
    hide Render, Write;
    ColonWords(pre, hm, w, f, rest);
    ColonWords(pre, hm, "0", f, rest);
    WriteReads(l, pre + hm, w + ":", f + rest, s, "05");
    assert "05" == "0" + "5";
    WriteReads(Write(l, |pre + hm|, "05"), pre + hm + "0", "5", f + rest, s, ".");
  }

  lemma ColonWords(pre: string, hm: string, w: string, f: string, rest: string)
    ensures pre + (hm + w) + (":" + f + rest) == (pre + hm) + w + (":" + f + rest)
    ensures (pre + hm) + w + (":" + f + rest) == (pre + hm) + (w + ":") + (f + rest)
    ensures (pre + hm) + w + (":" + f + rest) == (pre + hm + w) + ":" + (f + rest)
    ensures (pre + hm) + (w + "5") + (f + rest) == (pre + hm + w) + "5" + (f + rest)
    ensures (pre + hm + w) + "." + (f + rest) == pre + (hm + w) + ("." + f + rest)
  {}

  /** 15:04:05:257: the colon is read as a point, and the fraction is left as it is. */
  lemma ThirdColonAlone(p: Parser, s: string, c: Clock, pre: string, e: nat, f: string)
    requires Before(p, s, c, pre, e) && e <= |s| && s[e..] == ":" + f + "" && Digits(f) && c.s != ""
    ensures c.Valid() && e < |s|
    ensures LaysIn(Tailed(p, s, |pre|), p, s[e := '.'], s, |s|, pre + c.Laid() + ("." + f + ""), false)
  {
    hide RunTime, Before, TimeInv, TimeEndInv, Finish, Finished, TimeFinish, Render, Colons, Clock.Laid, Clock.Text, FiveSeconds, Either, Write;
    Enters(p, s, c, pre, e);
    ThirdColonRun(p, s, c, pre, e, f, "");
    PointedReads(p, s, c, pre, e, f, "");
    var w, d := Pointed(Read(p, c, |pre|), e), s[e := '.'];
    TimeEnds(w, d, |d|);
    TimeFinishIs(w, d, |d|);
    assert Finished(w, |d|) == w by { StartFinished(w, |d|); }
    PassEnds(p, s, c, pre, FiveSeconds(c), w, d, "." + f + "");
  }

  lemma StartFinished(w: Parser, i: int)
    requires w.stateTime.TimeStart?
    ensures Finished(w, i) == w
  {}

  /** The end of a pass over another string than it began with. */
  lemma PassEnds(p: Parser, s: string, c: Clock, pre: string, x: string, u: Parser, d: string, post: string)
    requires Finishable(u) && FractionFits(u) && Settled(p, |d|) && c.Valid() && pre != "" && Colons(c, x)
    requires Keeps(p, u, c, |pre|) && u.mslen == 0 && Render(u.layout, s) == pre + x + post
    ensures var v := u.CoalesceTime(|d|);
            LaysIn(Done(Finish(v, d, |d|), d), p, d, s, u.dlen, pre + c.Laid() + post, u.stateTime.TimeZ?)
  {
    hide Finish, Render, Colons, Clock.Laid, Clock.Text, Either, Write, FractionFits, Roles;
    ClockReads(u, |d|, s, c, pre, x, post);
    CoalesceKeeps(u, |d|);
    FinishSettled(u.CoalesceTime(|d|), d, |d|);
  }

  lemma FractionPassEnds(p: Parser, s: string, c: Clock, pre: string, x: string, u: Parser, d: string, f: string, back: string)
    requires Finishable(u) && Settled(p, |d|) && c.Valid() && pre != "" && Colons(c, x)
    requires Keeps(p, u, c, |pre|) && u.mslen == |f| && u.msi == |pre + x| + 1
    requires Render(u.layout, s) == pre + x + ("." + f + back)
    ensures FractionFits(u)
    ensures var v := u.CoalesceTime(|d|);
            LaysIn(Done(Finish(v, d, |d|), d), p, d, s, u.dlen, pre + c.Laid() + ("." + Noughts(|f|) + back), u.stateTime.TimeZ?)
  {
    hide Finish, Clock.Laid, Clock.Text, Either, Write, Roles, Zeros;
    assert |Render(u.layout, s)| == |u.layout|;
    assert |x| == |c.Text()|;
    hide Colons, Render;
    ClockReads(u, |d|, s, c, pre, x, "." + f + back);
    CoalesceKeeps(u, |d|);
    CoalesceFraction(u, |d|);
    Dotted(pre + c.Laid(), f, back);
    Dotted(pre + c.Laid(), Noughts(|f|), back);
    ZerosReads(u.CoalesceClock(|d|).layout, s, pre + c.Laid() + ".", f, back);
    FinishSettled(u.CoalesceTime(|d|), d, |d|);
  }

  /** 17:00:00:000+0100: with an offset the digits behind the third colon are a fraction again. */
  lemma ThirdColonOffset(p: Parser, s: string, c: Clock, pre: string, e: nat, f: string, z: Zone)
    requires Before(p, s, c, pre, e) && e <= |s| && s[e..] == ":" + f + z.Text() && Digits(f) && c.s != "" && FourDigits(z)
    ensures c.Valid() && e < |s|
    ensures LaysIn(Tailed(p, s, |pre|), p, s[e := '.'], s, |s|, pre + c.Laid() + ("." + Noughts(|f|) + "-0700"), false)
  {
    hide RunTime, Before, TimeInv, TimeEndInv, Finish, TimeFinish, Render, Colons, Clock.Laid, Clock.Text, FiveSeconds, Either, Write;
    hide Roles, Commas, TimeFlowInv, Zone.Text, Noughts, FractionFits, Keeps, LaysIn;
    Enters(p, s, c, pre, e);
    ThirdColonRun(p, s, c, pre, e, f, z.Text());
    PointedReads(p, s, c, pre, e, f, z.Text());
    var w, d, k := Pointed(Read(p, c, |pre|), e), s[e := '.'], e + 1 + |f|;
    assert d[k..|d|] == z.Text();
    ZoneBytes(z, d, k, |d|);
    var w' := w.(stateTime := TimeOffset, offseti := k, mslen := |f|);
    TimeHop(w, d, k, k, w');
    TimeEnds(w', d, k + 1);
    TimeFinishIs(w', d, |d|);
    var u := w'.Set(k, "-0700");
    StillKeeps(p, w, c, |pre|, u);
    assert FiveSeconds(c) != "" && |FiveSeconds(c)| == |c.Text()| by { SecondsLast(c, |pre|); ColonsLength(c, FiveSeconds(c)); }
    PointEnd(pre + FiveSeconds(c), f, z.Text());
    PointEnd(pre + FiveSeconds(c), f, "-0700");
    WriteReads(w.layout, pre + FiveSeconds(c) + "." + f, z.Text(), "", s, "-0700");
    FinishedEnds(w', d, |d|);
    FractionPassEnds(p, s, c, pre, FiveSeconds(c), u, d, f, "-0700");
  }

  lemma PointEnd(a: string, f: string, w: string)
    ensures a + ("." + f + w) == (a + "." + f) + w + ""
  {}

  lemma FinishedEnds(w: Parser, d: string, i: int)
    requires TimeEndInv(w, d, i) && w.stateTime.TimeOffset? && w.dlen - w.offseti == 5
    ensures Finishable(Finished(w, i)) && Finished(w, i) == w.Set(w.offseti, "-0700")
  {
    hide Write;
  }
}

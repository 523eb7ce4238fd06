// What may follow a clock: half-day marks, zones, years, fractions; and the layout it gets.
module DateTail {
  import opened DateText
  import opened DateParser
  import opened DateWalk
  import opened DateSpelling
  import opened DateClock

  // ---------------------------------------------------------------- from the clock to the result

  /** The last switch leaves such a parser of a string of n bytes alone. */
  predicate Settled(p: Parser, n: nat) {
    match p.stateDate
    case DateYearDash | DateYearDashDash | DateYearDashDashWs | DateYearDashDashT | DateDigitDotDot
       | DateDigitSlash | DateDigitYearSlash | DateDigitSlashAlpha | DateDigitColon | DateDigitWsMoYear | DateDigitSt
       | DateAlphaWsDigit | DateAlphaWsDigitYearmaybe | DateAlphaWsDigitMoreWsYear | DateAlphaWsMonthMore | DateAlphaWsAlpha
       | DateWeekdayComma | DateWeekdayAbbrevComma => true
    case DateDigitDashAlphaDash => n > p.moi + p.molen + 5
    case _ => false
  }

  /** The date is read, `pre` is laid out, and the clock comes next. */
  ghost predicate Before(p: Parser, s: string, c: Clock, pre: string, e: nat) {
    && TimeInv(p, s, |pre|) && Unread(p) && Stands(c, s, |pre|, e) && Settled(p, |s|)
    && |p.layout| == p.dlen == |s| && Render(p.layout, s) == pre + s[|pre|..]
  }

  /** The rest of a pass, from the clock on. */
  function Tailed(p: Parser, s: string, j: nat): Pass
    requires TimeInv(p, s, j)
  {
    match RunTime(p, s, j)
    case Restart(t, keep, d) => Again(t, keep, d)
    case Break(q, d, i) => EndTime(q, d, i)
  }

  ghost predicate SameBeginning(p: Parser, u: Parser) {
    && u.stateDate == p.stateDate && u.moi == p.moi && u.molen == p.molen
    && u.skip == p.skip && u.fullMonth == p.fullMonth && u.ambiguousMD == p.ambiguousMD && u.t == p.t
  }

  /** The pass ends with d, and `text` laid out over the first n bytes of s. */
  ghost predicate LaysIn(r: Pass, p: Parser, d: string, s: string, n: nat, text: string, zulu: bool) {
    && r.Done? && r.ds == d && r.res.err.None? && r.res.p.Some?
    && var u := r.res.p.value;
       SameBeginning(p, u) && u.zulu == zulu && |u.layout| == u.dlen == n && Render(u.layout, s) == text
  }

  ghost predicate Lays(r: Pass, p: Parser, s: string, n: nat, text: string, zulu: bool) {
    LaysIn(r, p, s, s, n, text, zulu)
  }

  lemma FinishSettled(u: Parser, s: string, i: int)
    requires Finishable(u) && Settled(u, |s|)
    ensures Finish(u, s, i) == Result(Some(u), None)
  {
    hide Write, Either, Roles, UnixStamp;
  }

  lemma CoalesceKeeps(u: Parser, i: int)
    requires FractionFits(u)
    ensures var v := u.CoalesceTime(i);
            SameBeginning(u, v) && v.zulu == u.zulu && |v.layout| == |u.layout| && v.dlen == u.dlen && (Roles(u) ==> Roles(v))
    ensures u.mslen == 0 ==> u.CoalesceTime(i).layout == u.CoalesceClock(i).layout
  {
    hide Write, Either;
  }

  /** What the switch behind the time loop makes of a parser, unless it rejects the offset. */
  function Finished(w: Parser, i: int): Parser {
    match w.stateTime
    case TimeOffset =>
      if w.dlen - w.offseti == 3 then w.Set(w.offseti, "-07")
      else if w.dlen - w.offseti == 5 then w.Set(w.offseti, "-0700") else w
    case TimeOffsetColon | TimeWsOffsetColon | TimePeriodOffsetColon => w.Set(w.offseti, "-07:00")
    case TimeWsOffset | TimePeriodOffset | TimePeriodWsOffset => w.Set(w.offseti, "-0700")
    case TimeWsAlphaZoneOffset => w.Set(w.offseti, if i - w.offseti < 4 then "-07" else "-0700")
    case TimeWsAlpha =>
      if w.dlen - w.tzi == 3 then w.Set(w.tzi, "MST")
      else if w.dlen - w.tzi == 4 then w.(extra := w.dlen - 1).Set(w.tzi, "MST").TrimExtra() else w
    case TimeWsAlphaWs | TimeWsYear => w.(yearlen := i - w.yeari).SetYear()
    case TimeWsAlphaZoneOffsetWsExtra => w.TrimExtra()
    case TimePeriod => w.(mslen := i - w.msi)
    case TimeWsOffsetWs =>
      if w.tzi > 0 then w.(layout := Either(w.layout, w.tzi, w.dlen - w.tzi, 3, "MST", 4, "MST ")) else w
    case TimePeriodWsOffsetColonAlpha =>
      w.(tzlen := i - w.tzi, layout := Either(w.layout, w.tzi, i - w.tzi, 3, "MST", 4, "MST "))
    case _ => w
  }

  lemma TimeFinishIs(w: Parser, s: string, i: int)
    requires TimeEndInv(w, s, i) && (w.stateTime.TimeOffset? ==> w.dlen - w.offseti in {3, 5, 6})
    ensures TimeFinish(w, s, i) == Break(Finished(w, i), s, i)
  {
    hide Write, Either, Roles, FinishInv;
  }

  // ---------------------------------------------------------------- the stages of a run

  /** The clock's spans, all closed, and what the date has left. */
  ghost predicate Keeps(p: Parser, w: Parser, c: Clock, j: nat) {
    && SameBeginning(p, w) && w.zulu == w.stateTime.TimeZ?
    && w.houri == j && w.hourlen == |c.h| && w.mini == c.MinuteAt(j) && w.minlen == |c.m|
    && (if c.s == "" then w.seci == 0 else w.seci == c.SecondAt(j) && w.seclen == |c.s|)
  }

  /** The time loop has come to i: `pre` is laid out, x stands for the clock, and `post` for what
      the buffer has behind it. */
  ghost predicate Stage(p: Parser, s: string, c: Clock, pre: string, x: string, w: Parser, i: nat, post: string) {
    && TimeInv(p, s, |pre|) && Settled(p, |s|) && c.Valid() && pre != "" && Colons(c, x)
    && TimeInv(w, s, i) && RunTime(p, s, |pre|) == RunTime(w, s, i)
    && Keeps(p, w, c, |pre|) && |w.layout| == w.dlen && Render(w.layout, s) == pre + x + post
  }

  /** The end of a pass without a fraction. */
  lemma Ended(p: Parser, s: string, c: Clock, pre: string, x: string, w: Parser, i: nat, u: Parser, post: string)
    requires TimeInv(p, s, |pre|) && Settled(p, |s|) && c.Valid() && pre != "" && Colons(c, x)
    requires RunTime(p, s, |pre|) == Break(w, s, i) && TimeEndInv(w, s, i)
    requires Finished(w, i) == u && (w.stateTime.TimeOffset? ==> w.dlen - w.offseti in {3, 5, 6})
    requires SameBeginning(p, u) && Spans(u, c, |pre|, i) && u.mslen == 0
    requires |u.layout| == u.dlen && Render(u.layout, s) == pre + x + post
    ensures Lays(Tailed(p, s, |pre|), p, s, u.dlen, pre + c.Laid() + post, u.zulu)
  {
    hide RunTime, TimeFinish, Finish, Finished, Write, Either, Render, Roles, Colons, Spans, Clock.Laid, FractionFits;
    TimeFinishIs(w, s, i);
    var v := u.CoalesceTime(i);
    ClockReads(u, i, s, c, pre, x, post);
    assert Finishable(v) && SameBeginning(p, v) by { CoalesceKeeps(u, i); }
    FinishSettled(v, s, i);
  }

  /** The same from a stage, with nothing that matters to the end of the string. */
  lemma StageEnds(p: Parser, s: string, c: Clock, pre: string, x: string, w: Parser, i: nat, post: string, u: Parser, end: string)
    requires Stage(p, s, c, pre, x, w, i, post) && StillAll(w, s, i, |s|)
    requires Finished(w, |s|) == u && (w.stateTime.TimeOffset? ==> w.dlen - w.offseti in {3, 5, 6})
    requires Keeps(p, u, c, |pre|) && u.mslen == 0 && |u.layout| == u.dlen && Render(u.layout, s) == pre + x + end
    ensures Lays(Tailed(p, s, |pre|), p, s, u.dlen, pre + c.Laid() + end, u.stateTime.TimeZ?)
  {
    hide RunTime, Lays, Tailed, TimeInv, TimeEndInv, Finished, StillAll, Render, Colons, Clock.Laid, Clock.Text;
    TimeEnds(w, s, i);
    Ended(p, s, c, pre, x, w, |s|, u, end);
  }

  /** One turn further, with the buffer as it was. */
  lemma StageGoesOn(p: Parser, s: string, c: Clock, pre: string, x: string, w: Parser, i: nat, post: string, j: nat, u: Parser)
    requires Stage(p, s, c, pre, x, w, i, post) && StillAll(w, s, i, j) && j < |s|
    requires TimeInv(w, s, j) ==> TimeTurn(w, s, j) == Next(u, s, j + 1)
    requires Keeps(p, u, c, |pre|) && u.layout == w.layout && u.dlen == w.dlen
    ensures Stage(p, s, c, pre, x, u, j + 1, post)
  {
    hide RunTime, TimeTurn, TimeInv, StillAll, Render, Colons, Keeps;
    TimeHop(w, s, i, j, u);
  }

  /** One turn further, where that writes. */
  lemma StageWrites(p: Parser, s: string, c: Clock, pre: string, x: string, w: Parser, i: nat, post: string, j: nat, u: Parser,
                    x': string, post': string)
    requires Stage(p, s, c, pre, x, w, i, post) && StillAll(w, s, i, j) && j < |s|
    requires TimeInv(w, s, j) ==> TimeTurn(w, s, j) == Next(u, s, j + 1)
    requires Keeps(p, u, c, |pre|) && |u.layout| == u.dlen && Colons(c, x') && Render(u.layout, s) == pre + x' + post'
    ensures Stage(p, s, c, pre, x', u, j + 1, post')
  {
    hide RunTime, TimeTurn, TimeInv, StillAll, Render, Colons, Keeps;
    TimeHop(w, s, i, j, u);
  }

  /** The time loop comes to the end of the clock. */
  lemma Enters(p: Parser, s: string, c: Clock, pre: string, e: nat)
    requires Before(p, s, c, pre, e)
    ensures c.Valid() && pre != "" && Colons(c, c.Text()) && Colons(c, c.Laid()) && |pre| < e <= |s| && Settled(p, |s|)
    ensures Render(p.layout, s) == pre + c.Text() + s[e..] && TimeInv(p, s, |pre|)
    ensures var q := Read(p, c, |pre|);
            && TimeInv(q, s, e) && RunTime(p, s, |pre|) == RunTime(q, s, e)
            && Spans(q, c, |pre|, e) && q.houri != 0 && q.mini != 0
            && (c.s == "" ==> q.seci == 0 && e - q.mini == |c.m|)
            && (c.s != "" ==> q.seci != 0 && e - q.seci == |c.s|)
    ensures Unread(p) && |p.layout| == p.dlen == |s|
  {
    hide RunTime, Roles, Commas;
    ClockRun(p, s, c, |pre|, e);
    assert s[|pre|..] == c.Text() + s[e..];
  }

  /** Nothing follows. */
  lemma ClockAlone(p: Parser, s: string, c: Clock, pre: string, e: nat)
    requires Before(p, s, c, pre, e) && e == |s|
    ensures Lays(Tailed(p, s, |pre|), p, s, |s|, pre + c.Laid(), false)
  {
    hide RunTime, Before, Lays, Tailed, TimeInv, TimeEndInv, Render, Colons, Roles, Clock.Laid, Clock.Text;
    Enters(p, s, c, pre, e);
    var q := Read(p, c, |pre|);
    TimeEnds(q, s, e);
    Ended(p, s, c, pre, c.Text(), q, e, q, s[e..]);
    assert s[e..] == "";
    NothingBack(pre, c.Laid());
  }

  lemma NothingBack(sep: string, w: string)
    ensures sep + w + "" == sep + w && "" + w == w && w + "" == w
  {}

  // ---------------------------------------------------------------- right behind the clock

  /** The parser behind a clock whose last part is closed. */
  function Closed(p: Parser, c: Clock, j: nat): Parser {
    Read(p, c, j).(minlen := |c.m|, seclen := if c.s == "" then 0 else |c.s|)
  }

  /** Z: the clock is in UTC. */
  lemma ZuluBehind(p: Parser, s: string, c: Clock, pre: string, e: nat)
    requires Before(p, s, c, pre, e) && e <= |s| && s[e..] == "Z"
    ensures Lays(Tailed(p, s, |pre|), p, s, |s|, pre + c.Laid() + "Z", true)
  {
    hide RunTime, Before, Lays, Tailed, TimeInv, TimeEndInv, Render, Colons, Roles, Commas, TimeFlowInv, Clock.Laid, Clock.Text;
    Enters(p, s, c, pre, e);
    assert s[e] == s[e..][0] == 'Z';
    var w := Closed(p, c, |pre|).(stateTime := TimeZ, zulu := true);
    TimeHop(Read(p, c, |pre|), s, e, e, w);
    StageEnds(p, s, c, pre, c.Text(), w, e + 1, "Z", w, "Z");
  }

  /** Z and digits, as in the layout of RFC 3339 itself: they are left as they are. */
  lemma ZuluAndDigit(p: Parser, s: string, c: Clock, pre: string, e: nat, rest: string)
    requires Before(p, s, c, pre, e) && e <= |s| && s[e..] == "Z" + rest && rest != "" && IsDigit(rest[0])
    ensures Lays(Tailed(p, s, |pre|), p, s, |s|, pre + c.Laid() + ("Z" + rest), true)
  {
    hide RunTime, Before, Lays, Tailed, TimeInv, TimeEndInv, Render, Colons, Roles, Commas, TimeFlowInv, Clock.Laid, Clock.Text;
    Enters(p, s, c, pre, e);
    var t := s[e..];
    assert s[e] == t[0] && s[e + 1] == t[1];
    var w := Closed(p, c, |pre|).(stateTime := TimeZ, zulu := true);
    TimeHop(Read(p, c, |pre|), s, e, e, w);
    ZuluDigitRun(w, s, e + 1);
    var u := w.(stateTime := TimeZDigit);
    Ended(p, s, c, pre, c.Text(), u, |s|, u, "Z" + rest);
  }

  lemma ZuluDigitRun(w: Parser, s: string, i: nat)
    requires TimeInv(w, s, i) && i < |s| && w.stateTime.TimeZ? && IsDigit(s[i])
    ensures RunTime(w, s, i) == Break(w.(stateTime := TimeZDigit), s, |s|) && TimeEndInv(w.(stateTime := TimeZDigit), s, |s|)
  {
    hide RunTime, TimeInv, TimeEndInv, Roles, Commas, TimeFlowInv;
    TimeHop(w, s, i, i, w.(stateTime := TimeZDigit));
    TimeEnds(w.(stateTime := TimeZDigit), s, i + 1);
  }

  /** Two or four digits of an offset, or two and two with a colon. */
  datatype Zone = Hours(sign: char, h: string, m: string, colon: bool)
  {
    predicate Valid() {
      && (sign == '+' || sign == '-') && Digits(h) && |h| == 2 && Digits(m)
      && (|m| == 2 || (m == "" && !colon))
    }

    function Text(): (r: string)
      ensures |r| == 1 + |h| + |m| + (if colon then 1 else 0)
    {
      [sign] + h + (if colon then ":" else "") + m
    }

    function Laid(): (r: string)
      requires Valid()
      ensures |r| == |Text()| == if m == "" then 3 else if colon then 6 else 5
    {
      if m == "" then "-07" else if colon then "-07:00" else "-0700"
    }
  }

  lemma ZoneBytes(z: Zone, s: string, o: nat, f: nat)
    requires z.Valid() && f == o + |z.Text()| <= |s| && s[o..f] == z.Text()
    ensures s[o] == z.sign && f == o + (if z.m == "" then 3 else if z.colon then 6 else 5)
    ensures forall k :: o < k < o + 3 ==> IsDigit(s[k])
    ensures z.colon ==> s[o + 3] == ':' && forall k :: o + 4 <= k < f ==> IsDigit(s[k])
    ensures !z.colon ==> forall k :: o < k < f ==> IsDigit(s[k])
  {
    var t := z.Text();
    assert forall k :: 0 <= k < |t| ==> s[o + k] == t[k];
    assert forall k :: 1 <= k < 3 ==> t[k] == z.h[k - 1];
    if z.colon {
      assert forall k :: 4 <= k < 6 ==> t[k] == z.m[k - 4];
    } else {
      assert forall k :: 3 <= k < |t| ==> t[k] == z.m[k - 3];
    }
  }

  lemma Signed(z: Zone)
    requires z.Valid()
    ensures z.Text() != "" && (z.Text()[0] == '+' || z.Text()[0] == '-')
  {}

  lemma OffsetBytes(s: string, g: nat, z: Zone, rest: string)
    requires z.Valid() && z.m != "" && g <= |s| && s[g..] == z.Text() + (" " + rest)
    ensures g + |z.Text()| + 1 + |rest| == |s| && s[g] == z.sign && s[g + |z.Text()|] == ' ' && s[g + |z.Text()| + 1..] == rest
    ensures forall k :: g < k < g + 3 ==> IsDigit(s[k])
    ensures z.colon ==> s[g + 3] == ':' && forall k :: g + 4 <= k < g + 6 ==> IsDigit(s[k])
    ensures !z.colon ==> forall k :: g < k < g + 5 ==> IsDigit(s[k])
  {
    hide Zone.Text;
    var n := |z.Text()|;
    assert s[g..g + n] == s[g..][..n] == z.Text();
    ZoneBytes(z, s, g, g + n);
    assert s[g + n] == s[g..][n] && s[g + n + 1..] == s[g..][n + 1..];
  }

  lemma SignBehind(p: Parser, s: string, c: Clock, pre: string, e: nat) returns (w: Parser)
    requires Before(p, s, c, pre, e) && e < |s| && (s[e] == '+' || s[e] == '-')
    ensures Stage(p, s, c, pre, c.Text(), w, e + 1, s[e..])
    ensures w.stateTime.TimeOffset? && w.offseti == e == |pre + c.Text() + ""| && w.dlen == |s| && w.mslen == 0
  {
    hide RunTime, Before, TimeInv, TimeEndInv, Render, Colons, Roles, Commas, TimeFlowInv, Clock.Laid, Clock.Text;
    Enters(p, s, c, pre, e);
    w := Closed(p, c, |pre|).(stateTime := TimeOffset, offseti := e);
    TimeHop(Read(p, c, |pre|), s, e, e, w);
  }

  /** An offset right behind the clock. */
  lemma OffsetBehind(p: Parser, s: string, c: Clock, pre: string, e: nat, z: Zone)
    requires Before(p, s, c, pre, e) && e <= |s| && z.Valid() && s[e..] == z.Text()
    ensures Lays(Tailed(p, s, |pre|), p, s, |s|, pre + c.Laid() + z.Laid(), false)
  {
    hide RunTime, Before, Stage, Keeps, Lays, Tailed, TimeInv, TimeEndInv, Render, Roles, Commas, TimeFlowInv, Clock.Laid, Clock.Text;
    hide Zone.Text, Zone.Laid;
    ZoneBytes(z, s, e, |s|);
    NothingBack("", z.Text());
    NothingBack("", z.Laid());
    NothingBack(pre, c.Text());
    var w := SignBehind(p, s, c, pre, e);
    if z.colon {
      var w' := w.(stateTime := TimeOffsetColon);
      assert Keeps(p, w', c, |pre|) by { KeepsState(p, s, c, pre, c.Text(), w, e + 1, s[e..], TimeOffsetColon); }
      StageGoesOn(p, s, c, pre, c.Text(), w, e + 1, s[e..], e + 3, w');
      OffsetEnds(p, s, c, pre, c.Text(), w', e + 4, z, "");
    } else {
      OffsetEnds(p, s, c, pre, c.Text(), w, e + 1, z, "");
    }
  }

  lemma KeepsState(p: Parser, s: string, c: Clock, pre: string, x: string, w: Parser, i: nat, post: string, t: TimeState)
    requires Stage(p, s, c, pre, x, w, i, post) && !w.stateTime.TimeZ? && !t.TimeZ?
    ensures Keeps(p, w.(stateTime := t), c, |pre|)
  {}

  /** An offset to the end of the string is laid out by the switch behind the loop. */
  lemma OffsetEnds(p: Parser, s: string, c: Clock, pre: string, x: string, w: Parser, i: nat, z: Zone, sep: string)
    requires Stage(p, s, c, pre, x, w, i, sep + z.Text()) && z.Valid() && StillAll(w, s, i, |s|)
    requires w.dlen == |s| && w.mslen == 0 && w.offseti == |pre + x + sep|
    requires match w.stateTime
             case TimeOffset => !z.colon
             case TimeWsOffset | TimePeriodOffset | TimePeriodWsOffset => !z.colon && z.m != ""
             case TimeOffsetColon | TimeWsOffsetColon | TimePeriodOffsetColon => z.colon
             case _ => false
    ensures Lays(Tailed(p, s, |pre|), p, s, |s|, pre + c.Laid() + (sep + z.Laid()), false)
  {
    hide RunTime, Lays, Tailed, TimeInv, TimeEndInv, StillAll, Render, Colons, Clock.Laid, Clock.Text, Write;
    hide Zone.Text;
    var u := w.Set(w.offseti, z.Laid());
    Around(pre + x, sep, z.Text(), "");
    Around(pre + x, sep, z.Laid(), "");
    NothingBack(sep, z.Text());
    NothingBack(sep, z.Laid());
    WriteReads(w.layout, pre + x + sep, z.Text(), "", s, z.Laid());
    assert w.stateTime.TimeOffset? ==> w.dlen - w.offseti in {3, 5, 6};
    StageEnds(p, s, c, pre, x, w, i, sep + z.Text(), u, sep + z.Laid());
  }

  lemma Around(a: string, sep: string, w: string, back: string)
    ensures a + (sep + w + back) == (a + sep) + w + back
  {}

  // ---------------------------------------------------------------- am and pm

  predicate HalfMarked(mark: string) { mark in ["am", "AM", "pm", "PM"] }

  /** Of the four only AM is not laid out as it is. */
  function HalfLaid(mark: string): string { if mark == "AM" then "PM" else mark }

  lemma HalfTurn(q: Parser, s: string, e: nat, mark: string)
    requires TimeInv(q, s, e) && e + 2 <= |s| && HalfMarked(mark) && s[e] == mark[0] && s[e + 1] == mark[1]
    requires q.stateTime.TimeStart? && q.houri != 0
    ensures var w := q.CoalesceTime(e).Set(e, HalfLaid(mark));
            TimeTurn(q, s, e) == Next(w, s, e + 1) && w.stateTime.TimeStart? && w.houri != 0
  {
    hide TimeInv, Roles, Commas, TimeFlowInv, Either, Write;
  }

  lemma MarkBytes(s: string, e: nat, mark: string, rest: string)
    requires e <= |s| && s[e..] == mark + rest && |mark| == 2
    ensures e + 2 + |rest| == |s| && s[e + 2..] == rest && s[e] == mark[0] && s[e + 1] == mark[1]
  {
    var t := s[e..];
    assert s[e] == t[0] && s[e + 1] == t[1] && s[e + 2..] == t[2..];
  }

  /** A mark right behind the clock. */
  lemma HalfBehind(p: Parser, s: string, c: Clock, pre: string, e: nat, mark: string, rest: string) returns (w: Parser)
    requires Before(p, s, c, pre, e) && e <= |s| && HalfMarked(mark) && s[e..] == mark + rest
    ensures Stage(p, s, c, pre, c.Laid(), w, e + 2, HalfLaid(mark) + rest) && e + 2 + |rest| == |s| && s[e + 2..] == rest
    ensures w.stateTime.TimeStart? && Blank(w) && w.dlen == |s| && w.yeari == p.yeari && w.houri != 0
  {
    hide RunTime, Before, TimeInv, TimeEndInv, Render, Colons, Roles, Commas, TimeFlowInv, Clock.Laid, Clock.Text, Either, Write, TimeTurn;
    Enters(p, s, c, pre, e);
    MarkBytes(s, e, mark, rest);
    var q := Read(p, c, |pre|);
    HalfTurn(q, s, e, mark);
    var l := q.CoalesceClock(e).layout;
    w := Closed(p, c, |pre|).(layout := Write(l, e, HalfLaid(mark)));
    TimeHop(q, s, e, e, w);
    TimeHop(w, s, e + 1, e + 1, w) by { MarkPasses(w, s, e + 1); }
    ClockReads(q, e, s, c, pre, c.Text(), s[e..]);
    SpliceFront(l, s, pre + c.Laid(), mark, rest, HalfLaid(mark));
  }

  lemma MarkPasses(w: Parser, s: string, i: nat)
    requires i < |s| && w.stateTime.TimeStart? && w.houri != 0 && (s[i] == 'm' || s[i] == 'M')
    ensures TimeInv(w, s, i) ==> TimeTurn(w, s, i) == Next(w, s, i + 1)
  {
    hide TimeInv, Roles, Commas, TimeFlowInv;
  }

  lemma SpliceFront(l: seq<Cell>, s: string, a: string, w: string, back: string, v: string)
    requires Render(l, s) == a + (w + back) && |v| == |w|
    ensures Render(Write(l, |a|, v), s) == a + (v + back)
  {
    hide Render, Write;
    Regroup(a, w, back);
    Regroup(a, v, back);
    WriteReads(l, a, w, back, s, v);
  }

  predicate Blank(w: Parser) { w.mslen == 0 && w.msi == 0 && w.tzi == 0 && w.offseti == 0 && w.extra == 0 }

  lemma HalfAlone(p: Parser, s: string, c: Clock, pre: string, e: nat, mark: string)
    requires c.Valid() && Before(p, s, c, pre, e) && e <= |s| && HalfMarked(mark) && s[e..] == mark
    ensures Lays(Tailed(p, s, |pre|), p, s, |s|, pre + c.Laid() + HalfLaid(mark), false)
  {
    hide Before, Stage, Lays, Tailed, TimeInv, Render, Clock.Laid, Clock.Text, HalfMarked, HalfLaid;
    NothingBack("", mark);
    NothingBack("", HalfLaid(mark));
    var w := HalfBehind(p, s, c, pre, e, mark, "");
    assert Stage(p, s, c, pre, c.Laid(), w, |s|, HalfLaid(mark));
    StageParts(p, s, c, pre, c.Laid(), w, |s|, HalfLaid(mark));
    StageEnds(p, s, c, pre, c.Laid(), w, |s|, HalfLaid(mark), w, HalfLaid(mark));
  }

  lemma StageParts(p: Parser, s: string, c: Clock, pre: string, x: string, w: Parser, i: nat, post: string)
    requires Stage(p, s, c, pre, x, w, i, post)
    ensures Keeps(p, w, c, |pre|) && |w.layout| == w.dlen && Render(w.layout, s) == pre + x + post
    ensures TimeInv(p, s, |pre|) && TimeInv(w, s, i) && Colons(c, x)
  {}

  // ---------------------------------------------------------------- a space behind the clock

  /** The loop stands at a tail t behind a space; what is laid out behind the clock is sep. */
  ghost predicate AtWord(p: Parser, s: string, c: Clock, pre: string, w: Parser, i: nat, sep: string, t: string) {
    && c.Valid() && Stage(p, s, c, pre, c.Laid(), w, i, sep + t) && w.stateTime.TimeWs? && Blank(w)
    && w.dlen == |s| && w.yeari == p.yeari
    && i == |pre + c.Laid() + sep| && i <= |s| && s[i..] == t
  }

  lemma SpaceBehind(p: Parser, s: string, c: Clock, pre: string, e: nat, t: string) returns (w: Parser)
    requires Before(p, s, c, pre, e) && e <= |s| && s[e..] == " " + t
    ensures AtWord(p, s, c, pre, w, e + 1, " ", t)
  {
    hide RunTime, Before, TimeInv, TimeEndInv, Render, Colons, Roles, Commas, TimeFlowInv, Clock.Laid, Clock.Text, Either, Write;
    Enters(p, s, c, pre, e);
    assert s[e] == s[e..][0] && s[e + 1..] == s[e..][1..];
    var q := Read(p, c, |pre|);
    w := Closed(p, c, |pre|).(stateTime := TimeWs, layout := q.CoalesceClock(e).layout);
    TimeHop(q, s, e, e, w);
    ClockReads(q, e, s, c, pre, c.Text(), s[e..]);
  }

  /** A space behind a mark. */
  lemma SpaceAgain(p: Parser, s: string, c: Clock, pre: string, v: Parser, i: nat, sep: string, t: string) returns (w: Parser)
    requires c.Valid() && Stage(p, s, c, pre, c.Laid(), v, i, sep + (" " + t)) && v.stateTime.TimeStart? && Blank(v) && v.houri != 0
    requires v.dlen == |s| && v.yeari == p.yeari && i == |pre + c.Laid() + sep| && i <= |s| && s[i..] == " " + t
    ensures AtWord(p, s, c, pre, w, i + 1, sep + " ", t)
  {
    hide RunTime, TimeInv, TimeEndInv, Render, Colons, Roles, Commas, TimeFlowInv, Clock.Laid, Clock.Text, Either, Write;
    assert s[i] == s[i..][0] && s[i + 1..] == s[i..][1..];
    w := v.(stateTime := TimeWs, layout := v.CoalesceClock(i).layout);
    TimeHop(v, s, i, i, w);
    ClockReads(v, i, s, c, pre, c.Laid(), sep + (" " + t));
    Regroup(sep, " ", t);
  }

  lemma WordParts(p: Parser, s: string, c: Clock, pre: string, w: Parser, i: nat, sep: string, t: string)
    requires AtWord(p, s, c, pre, w, i, sep, t)
    ensures c.Valid() && TimeInv(p, s, |pre|) && Stage(p, s, c, pre, c.Laid(), w, i, sep + t) && w.stateTime.TimeWs? && Blank(w)
    ensures w.dlen == |s| && w.yeari == p.yeari && i == |pre + c.Laid() + sep| && i + |t| == |s| && s[i..] == t
    ensures Keeps(p, w, c, |pre|) && w.houri == |pre| && w.hourlen == |c.h| && !w.zulu
  {}

  /** Between two stages only what belongs to neither date nor clock has changed. */
  lemma StillKeeps(p: Parser, w: Parser, c: Clock, j: nat, u: Parser)
    requires Keeps(p, w, c, j)
    requires SameBeginning(w, u) && u.zulu == w.zulu && u.stateTime.TimeZ? == w.stateTime.TimeZ? && u.houri == w.houri
    requires u.hourlen == w.hourlen && u.mini == w.mini && u.minlen == w.minlen && u.seci == w.seci && u.seclen == w.seclen
    ensures Keeps(p, u, c, j)
  {}

  // ---------------------------------------------------------------- a space and AM or PM

  function HalfDay(w: Parser, i: nat): Parser {
    w.(tzi := i, stateTime := TimeWsAMPM,
       layout := Either(Write(w.layout, i, "PM"), w.houri, w.hourlen, 2, "03", 1, "3"))
  }

  /** AM or PM, and anything behind it: both are laid out as PM, the rest as it is. */
  lemma HalfDayWord(p: Parser, s: string, c: Clock, pre: string, w: Parser, i: nat, sep: string, half: string, rest: string)
    requires AtWord(p, s, c, pre, w, i, sep, half + rest) && (half == "AM" || half == "PM")
    ensures c.Valid() && TimeInv(p, s, |pre|)
    ensures Lays(Tailed(p, s, |pre|), p, s, |s|, pre + c.Laid() + (sep + "PM" + rest), false)
  {
    hide RunTime, Stage, AtWord, Keeps, Lays, Tailed, TimeInv, TimeEndInv, Render, Roles, Commas, TimeFlowInv, Clock.Laid, Clock.Text;
    hide Either, Write, Zone.Text;
    WordParts(p, s, c, pre, w, i, sep, half + rest);
    assert s[i] == s[i..][0] && s[i + 1] == s[i..][1];
    var w1 := w.(tzi := i, stateTime := TimeWsAMPMMaybe);
    StillKeeps(p, w, c, |pre|, w1);
    StageGoesOn(p, s, c, pre, c.Laid(), w, i, sep + (half + rest), i, w1);
    var u := HalfDay(w, i);
    StillKeeps(p, w, c, |pre|, u);
    StageParts(p, s, c, pre, c.Laid(), w, i, sep + (half + rest));
    Regroup(sep, half, rest);
    var x := HalfDayReads(w.layout, s, c, pre, i, sep, half, rest);
    StageWrites(p, s, c, pre, c.Laid(), w1, i + 1, sep + (half + rest), i + 1, u, x, sep + "PM" + rest);
    StageEnds(p, s, c, pre, x, u, i + 2, sep + "PM" + rest, u, sep + "PM" + rest);
  }

  lemma HalfDayReads(l: seq<Cell>, s: string, c: Clock, pre: string, i: nat, sep: string, half: string, rest: string) returns (x: string)
    requires c.Valid() && |half| == 2 && i == |pre + c.Laid() + sep|
    requires Render(l, s) == pre + c.Laid() + (sep + half + rest)
    ensures Colons(c, x)
    ensures Render(Either(Write(l, i, "PM"), |pre|, |c.h|, 2, "03", 1, "3"), s) == pre + x + (sep + "PM" + rest)
  {
    hide Render, Write, Either, Clock.Behind;
    var w, behind := if |c.h| == 2 then "15" else "3", c.Behind();
    var v := if |c.h| == 2 then "03" else "3";
    HalfDayWords(pre, w, v, behind, sep, half, rest);
    WriteReads(l, pre + (w + behind) + sep, half, rest, s, "PM");
    EitherReads(Write(l, i, "PM"), pre, w, behind + sep + "PM" + rest, s, 2, "03", 1, "3");
    x := v + behind;
  }

  lemma HalfDayWords(pre: string, w: string, v: string, behind: string, sep: string, half: string, rest: string)
    ensures pre + (w + behind) + (sep + half + rest) == (pre + (w + behind) + sep) + half + rest
    ensures (pre + (w + behind) + sep) + "PM" + rest == pre + w + (behind + sep + "PM" + rest)
    ensures pre + v + (behind + sep + "PM" + rest) == pre + (v + behind) + (sep + "PM" + rest)
  {}

  // ---------------------------------------------------------------- a space and an offset

  lemma SignWord(p: Parser, s: string, c: Clock, pre: string, w: Parser, i: nat, sep: string, t: string)
    requires AtWord(p, s, c, pre, w, i, sep, t) && t != "" && (t[0] == '+' || t[0] == '-')
    ensures var u := w.(offseti := i, stateTime := TimeWsOffset);
            c.Valid() && Stage(p, s, c, pre, c.Laid(), u, i + 1, sep + t)
  {
    hide RunTime, Stage, AtWord, Keeps, Lays, Tailed, TimeInv, TimeEndInv, Render, Roles, Commas, TimeFlowInv, Clock.Laid, Clock.Text;
    hide Either, Write, Zone.Text;
    WordParts(p, s, c, pre, w, i, sep, t);
    assert s[i] == s[i..][0];
    var u := w.(offseti := i, stateTime := TimeWsOffset);
    StillKeeps(p, w, c, |pre|, u);
    StageGoesOn(p, s, c, pre, c.Laid(), w, i, sep + t, i, u);
  }

  /** An offset of four digits, or of two and two. */
  lemma OffsetWord(p: Parser, s: string, c: Clock, pre: string, w: Parser, i: nat, sep: string, z: Zone)
    requires AtWord(p, s, c, pre, w, i, sep, z.Text()) && z.Valid() && z.m != ""
    ensures c.Valid() && TimeInv(p, s, |pre|)
    ensures Lays(Tailed(p, s, |pre|), p, s, |s|, pre + c.Laid() + (sep + z.Laid()), false)
  {
    hide RunTime, Stage, AtWord, Keeps, Lays, Tailed, TimeInv, TimeEndInv, Render, Roles, Commas, TimeFlowInv, Clock.Laid, Clock.Text;
    hide Either, Write, Zone.Text;
    WordParts(p, s, c, pre, w, i, sep, z.Text());
    ZoneBytes(z, s, i, |s|);
    assert z.Text()[0] == s[i];
    SignWord(p, s, c, pre, w, i, sep, z.Text());
    var u := w.(offseti := i, stateTime := TimeWsOffset);
    if z.colon {
      var v := u.(stateTime := TimeWsOffsetColon);
      StillKeeps(p, w, c, |pre|, v);
      StageGoesOn(p, s, c, pre, c.Laid(), u, i + 1, sep + z.Text(), i + 3, v);
      OffsetEnds(p, s, c, pre, c.Laid(), v, i + 4, z, sep);
    } else {
      OffsetEnds(p, s, c, pre, c.Laid(), u, i + 1, z, sep);
    }
  }

  /** An offset with a colon and a zone abbreviation: the loop is left at its first letter, and
      neither is laid out. */
  lemma OffsetColonText(p: Parser, s: string, c: Clock, pre: string, w: Parser, i: nat, sep: string, z: Zone, rest: string)
    requires AtWord(p, s, c, pre, w, i, sep, z.Text() + (" " + rest)) && z.Valid() && z.colon && rest != "" && IsLetter(rest[0])
    ensures c.Valid() && TimeInv(p, s, |pre|)
    ensures Lays(Tailed(p, s, |pre|), p, s, |s|, pre + c.Laid() + (sep + (z.Text() + (" " + rest))), false)
  {
    hide RunTime, Stage, AtWord, Keeps, Lays, Tailed, TimeInv, TimeEndInv, Render, Roles, Commas, TimeFlowInv, Clock.Laid, Clock.Text;
    hide Either, Write, Zone.Text;
    var t := z.Text() + (" " + rest);
    Signed(z);
    assert t[0] == z.Text()[0];
    WordParts(p, s, c, pre, w, i, sep, t);
    OffsetBytes(s, i, z, rest);
    SignWord(p, s, c, pre, w, i, sep, t);
    var u := w.(offseti := i, stateTime := TimeWsOffset);
    var v := u.(stateTime := TimeWsOffsetColon);
    StillKeeps(p, w, c, |pre|, v);
    StageGoesOn(p, s, c, pre, c.Laid(), u, i + 1, sep + t, i + 3, v);
    assert s[i + 7] == rest[0] by { assert s[i + 7..] == rest; }
    LettersLeave(p, s, c, pre, v, i + 4, i + 7, sep + t);
  }

  lemma LettersLeave(p: Parser, s: string, c: Clock, pre: string, v: Parser, i: nat, j: nat, post: string)
    requires c.Valid() && Stage(p, s, c, pre, c.Laid(), v, i, post) && v.stateTime.TimeWsOffsetColon? && v.mslen == 0
    requires i <= j < |s| && IsLetter(s[j]) && (forall k :: i <= k < j ==> !IsLetter(s[k])) && v.dlen == |s|
    ensures TimeInv(p, s, |pre|)
    ensures Lays(Tailed(p, s, |pre|), p, s, |s|, pre + c.Laid() + post, false)
  {
    hide RunTime, Lays, Tailed, TimeInv, TimeEndInv, Render, Colons, Clock.Laid, Clock.Text, Roles, Commas, TimeFlowInv;
    var u := v.(stateTime := TimeWsOffsetColonAlpha);
    TimeLeaves(v, s, i, j, u);
    Ended(p, s, c, pre, c.Laid(), u, j, u, post);
  }

  // ---------------------------------------------------------------- and something behind that offset

  predicate FourDigits(z: Zone) { z.Valid() && z.m != "" && !z.colon }

  /** The loop stands behind the space that follows an offset of four digits. */
  ghost predicate AtZoned(p: Parser, s: string, c: Clock, pre: string, w: Parser, i: nat, sep: string, rest: string) {
    && c.Valid() && Stage(p, s, c, pre, c.Laid(), w, i, (sep + "-0700") + (" " + rest)) && w.stateTime.TimeWsOffsetWs?
    && w.dlen == |s| && w.mslen == 0 && w.tzi == 0 && w.yeari == i && w.offseti == |pre + c.Laid() + sep|
    && i == |pre + c.Laid() + (sep + "-0700") + " "| && i <= |s| && s[i..] == rest
  }

  lemma OffsetThen(p: Parser, s: string, c: Clock, pre: string, w: Parser, i: nat, sep: string, z: Zone, rest: string)
    returns (u: Parser)
    requires AtWord(p, s, c, pre, w, i, sep, z.Text() + (" " + rest)) && FourDigits(z)
    ensures AtZoned(p, s, c, pre, u, i + 6, sep, rest)
  {
    hide RunTime, Stage, AtWord, Keeps, Lays, Tailed, TimeInv, TimeEndInv, Render, Roles, Commas, TimeFlowInv, Clock.Laid, Clock.Text;
    hide Either, Write, Zone.Text;
    var t := z.Text() + (" " + rest);
    WordParts(p, s, c, pre, w, i, sep, t);
    Signed(z);
    assert t[0] == z.Text()[0];
    OffsetBytes(s, i, z, rest);
    SignWord(p, s, c, pre, w, i, sep, t);
    var v := w.(offseti := i, stateTime := TimeWsOffset);
    u := v.(yeari := i + 6, stateTime := TimeWsOffsetWs, layout := Write(w.layout, i, "-0700"));
    StillKeeps(p, w, c, |pre|, u);
    StageParts(p, s, c, pre, c.Laid(), v, i + 1, sep + t);
    SpliceMiddle(w.layout, s, pre + c.Laid(), sep, z.Text(), " " + rest, "-0700");
    StageWrites(p, s, c, pre, c.Laid(), v, i + 1, sep + t, i + 5, u, c.Laid(), (sep + "-0700") + (" " + rest));
  }

  lemma SpliceMiddle(l: seq<Cell>, s: string, a: string, sep: string, w: string, back: string, v: string)
    requires Render(l, s) == a + (sep + (w + back)) && |v| == |w|
    ensures Render(Write(l, |a + sep|, v), s) == a + ((sep + v) + back)
  {
    hide Render, Write;
    Middle(a, sep, w, back);
    Middle(a, sep, v, back);
    WriteReads(l, a + sep, w, back, s, v);
  }

  lemma Middle(a: string, sep: string, w: string, back: string)
    ensures a + (sep + (w + back)) == (a + sep) + w + back
    ensures a + ((sep + w) + back) == (a + sep) + w + back
  {}

  lemma ZonedParts(p: Parser, s: string, c: Clock, pre: string, w: Parser, i: nat, sep: string, rest: string)
    requires AtZoned(p, s, c, pre, w, i, sep, rest)
    ensures c.Valid() && TimeInv(p, s, |pre|) && Stage(p, s, c, pre, c.Laid(), w, i, (sep + "-0700") + (" " + rest))
    ensures w.stateTime.TimeWsOffsetWs? && w.dlen == |s| && w.mslen == 0 && w.tzi == 0 && w.yeari == i
    ensures w.offseti == |pre + c.Laid() + sep|
    ensures i == |pre + c.Laid() + (sep + "-0700") + " "| && i + |rest| == |s| && s[i..] == rest
    ensures Keeps(p, w, c, |pre|) && !w.zulu && |w.layout| == |s|
    ensures Render(w.layout, s) == pre + c.Laid() + ((sep + "-0700") + (" " + rest))
  {}

  /** How a zone abbreviation at the end is laid out: of four letters the last becomes a space. */
  function NameLaid(name: string): (r: string)
    ensures |r| == |name|
  {
    if |name| == 3 then "MST" else if |name| == 4 then "MST " else name
  }

  lemma ZonedName(p: Parser, s: string, c: Clock, pre: string, w: Parser, i: nat, sep: string, name: string, rest: string)
    requires AtZoned(p, s, c, pre, w, i, sep, name + rest) && name != "" && Letters(name) && rest != ""
    ensures c.Valid() && i + |name| < |s| && s[i + |name|..] == rest
    ensures Stage(p, s, c, pre, c.Laid(), w.(tzi := i), i + 1, (sep + "-0700") + (" " + (name + rest)))
    ensures StillAll(w.(tzi := i), s, i + 1, i + |name|)
  {
    hide RunTime, Stage, AtWord, Keeps, Lays, Tailed, TimeInv, TimeEndInv, Render, Roles, Commas, TimeFlowInv, Clock.Laid, Clock.Text;
    hide Either, Write, Zone.Text;
    ZonedParts(p, s, c, pre, w, i, sep, name + rest);
    assert s[i..i + |name|] == s[i..][..|name|] == name && s[i + |name|..] == s[i..][|name|..];
    LetterBytes(s, i, name);
    StillKeeps(p, w, c, |pre|, w.(tzi := i));
    StageGoesOn(p, s, c, pre, c.Laid(), w, i, (sep + "-0700") + (" " + (name + rest)), i, w.(tzi := i));
  }

  /** +0530 UTC: an offset and a zone abbreviation. */
  lemma OffsetAndName(p: Parser, s: string, c: Clock, pre: string, w: Parser, i: nat, sep: string, name: string)
    requires AtZoned(p, s, c, pre, w, i, sep, name) && name != "" && Letters(name)
    ensures c.Valid() && TimeInv(p, s, |pre|)
    ensures Lays(Tailed(p, s, |pre|), p, s, |s|, pre + c.Laid() + ((sep + "-0700") + (" " + NameLaid(name))), false)
  {
    hide RunTime, Stage, AtWord, Keeps, Lays, Tailed, TimeInv, TimeEndInv, Render, Roles, Commas, TimeFlowInv, Clock.Laid, Clock.Text;
    hide Either, Write, Zone.Text;
    ZonedParts(p, s, c, pre, w, i, sep, name);
    assert s[i..i + |name|] == name;
    LetterBytes(s, i, name);
    var v := w.(tzi := i);
    StillKeeps(p, w, c, |pre|, v);
    StageGoesOn(p, s, c, pre, c.Laid(), w, i, (sep + "-0700") + (" " + name), i, v);
    var u := v.(layout := Either(w.layout, i, |name|, 3, "MST", 4, "MST "));
    StillKeeps(p, w, c, |pre|, u);
    SpliceEnd(w.layout, s, pre + c.Laid(), sep + "-0700", name);
    StageEnds(p, s, c, pre, c.Laid(), v, i + 1, (sep + "-0700") + (" " + name), u, (sep + "-0700") + (" " + NameLaid(name)));
  }

  lemma SpliceEnd(l: seq<Cell>, s: string, a: string, sep: string, name: string)
    requires Render(l, s) == a + (sep + (" " + name))
    ensures Render(Either(l, |a + sep + " "|, |name|, 3, "MST", 4, "MST "), s) == a + (sep + (" " + NameLaid(name)))
  {
    hide Render, Write, Either;
    Last(a, sep, name);
    Last(a, sep, NameLaid(name));
    EitherReads(l, a + sep + " ", name, "", s, 3, "MST", 4, "MST ");
  }

  lemma Last(a: string, b: string, w: string)
    ensures a + (b + (" " + w)) == (a + b + " ") + w + ""
  {}

  /** +0530 2008: an offset and a year. */
  lemma OffsetAndYear(p: Parser, s: string, c: Clock, pre: string, w: Parser, i: nat, sep: string, year: string)
    requires AtZoned(p, s, c, pre, w, i, sep, year) && Digits(year) && |year| == 4
    ensures c.Valid() && TimeInv(p, s, |pre|)
    ensures Lays(Tailed(p, s, |pre|), p, s, |s|, pre + c.Laid() + ((sep + "-0700") + (" " + "2006")), false)
  {
    hide RunTime, Stage, AtWord, Keeps, Lays, Tailed, TimeInv, TimeEndInv, Render, Roles, Commas, TimeFlowInv, Clock.Laid, Clock.Text;
    hide Either, Write, Zone.Text;
    hide OnTimeMonotonic, OnTimeExtraZone;
    ZonedParts(p, s, c, pre, w, i, sep, year);
    assert s[i..i + 4] == year;
    DigitBytes(s, i, year);
    var post := (sep + "-0700") + (" " + year);
    var u := w.(yearlen := 4, layout := Write(w.layout, i, "2006"));
    StillKeeps(p, w, c, |pre|, w.(yearlen := 1));
    StillKeeps(p, w, c, |pre|, w.(yearlen := 2));
    StillKeeps(p, w, c, |pre|, w.(yearlen := 3));
    StillKeeps(p, w, c, |pre|, u);
    StageGoesOn(p, s, c, pre, c.Laid(), w, i, post, i, w.(yearlen := 1));
    StageGoesOn(p, s, c, pre, c.Laid(), w.(yearlen := 1), i + 1, post, i + 1, w.(yearlen := 2));
    StageGoesOn(p, s, c, pre, c.Laid(), w.(yearlen := 2), i + 2, post, i + 2, w.(yearlen := 3));
    SpliceYear(w.layout, s, pre + c.Laid(), sep + "-0700", year);
    StageParts(p, s, c, pre, c.Laid(), w.(yearlen := 3), i + 3, post);
    StageWrites(p, s, c, pre, c.Laid(), w.(yearlen := 3), i + 3, post, i + 3, u, c.Laid(), (sep + "-0700") + (" " + "2006"));
    StageEnds(p, s, c, pre, c.Laid(), u, i + 4, (sep + "-0700") + (" " + "2006"), u, (sep + "-0700") + (" " + "2006"));
  }

  lemma SpliceYear(l: seq<Cell>, s: string, a: string, sep: string, year: string)
    requires Render(l, s) == a + (sep + (" " + year)) && |year| == 4
    ensures Render(Write(l, |a + sep + " "|, "2006"), s) == a + (sep + (" " + "2006"))
  {
    hide Render, Write;
    Last(a, sep, year);
    Last(a, sep, "2006");
    WriteReads(l, a + sep + " ", year, "", s, "2006");
  }

  /** What a second zone may hold, for all of it to be cut off. */
  predicate Unspaced(t: string) { forall k :: 0 <= k < |t| ==> t[k] != ' ' && t[k] != ':' }

  lemma UnspacedBytes(s: string, i: nat, t: string)
    requires i <= |s| && s[i..] == t && Unspaced(t)
    ensures forall k :: i <= k < |s| ==> s[k] != ' ' && s[k] != ':'
  {
    forall k | i <= k < |s| ensures s[k] != ' ' && s[k] != ':' { assert s[k] == t[k - i]; }
  }

  /** An offset that was laid out already is so again. */
  lemma OffsetEndsAgain(p: Parser, s: string, c: Clock, pre: string, w: Parser, i: nat, sep: string, back: string)
    requires c.Valid() && Stage(p, s, c, pre, c.Laid(), w, i, (sep + "-0700") + back) && w.stateTime.TimeWsOffset?
    requires StillAll(w, s, i, |s|) && w.mslen == 0 && w.offseti == |pre + c.Laid() + sep|
    ensures TimeInv(p, s, |pre|)
    ensures Lays(Tailed(p, s, |pre|), p, s, w.dlen, pre + c.Laid() + ((sep + "-0700") + back), false)
  {
    hide RunTime, Lays, Tailed, TimeInv, TimeEndInv, StillAll, Render, Colons, Clock.Laid, Clock.Text, Write;
    var u := w.Set(w.offseti, "-0700");
    Middle(pre + c.Laid(), sep, "-0700", back);
    WriteReads(w.layout, pre + c.Laid() + sep, "-0700", back, s, "-0700");
    StageEnds(p, s, c, pre, c.Laid(), w, i, (sep + "-0700") + back, u, (sep + "-0700") + back);
  }

  lemma RenderFirst(l: seq<Cell>, s: string, a: string, b: string)
    requires Render(l, s) == a + b
    ensures |a| <= |l| && Render(l[..|a|], s) == a
  {
    assert |Render(l, s)| == |l|;
    forall k | 0 <= k < |a| ensures Render(l[..|a|], s)[k] == a[k] { assert Render(l, s)[k] == a[k]; }
  }

  /** +0300 +03 or +0300 (MSK): the second zone is cut off, with the space before it. */
  lemma OffsetTwice(p: Parser, s: string, c: Clock, pre: string, w: Parser, i: nat, sep: string, rest: string)
    requires AtZoned(p, s, c, pre, w, i, sep, rest) && rest != "" && Unspaced(rest)
    requires rest[0] == '+' || rest[0] == '-' || rest[0] == '('
    ensures c.Valid() && TimeInv(p, s, |pre|)
    ensures Lays(Tailed(p, s, |pre|), p, s, |s| - 1 - |rest|, pre + c.Laid() + (sep + "-0700"), false)
  {
    hide RunTime, Stage, AtWord, Keeps, Lays, Tailed, TimeInv, TimeEndInv, Render, Roles, Commas, TimeFlowInv, Clock.Laid, Clock.Text;
    hide Either, Write, Zone.Text;
    hide OnTimeMonotonic;
    ZonedParts(p, s, c, pre, w, i, sep, rest);
    assert s[i] == s[i..][0];
    UnspacedBytes(s, i, rest);
    var u := w.(stateTime := TimeWsOffset, extra := i - 1, layout := w.layout[..i - 1], dlen := i - 1);
    StillKeeps(p, w, c, |pre|, u);
    CutReads(w.layout, s, pre + c.Laid(), sep + "-0700", " " + rest);
    StageParts(p, s, c, pre, c.Laid(), w, i, (sep + "-0700") + (" " + rest));
    NothingBack("", sep + "-0700");
    StageWrites(p, s, c, pre, c.Laid(), w, i, (sep + "-0700") + (" " + rest), i, u, c.Laid(), (sep + "-0700") + "");
    OffsetEndsAgain(p, s, c, pre, u, i + 1, sep, "");
  }

  lemma CutReads(l: seq<Cell>, s: string, a: string, kept: string, gone: string)
    requires Render(l, s) == a + (kept + gone)
    ensures |a + kept| <= |l| && Render(l[..|a + kept|], s) == a + kept
  {
    hide Render;
    Regroup(a, kept, gone);
    RenderFirst(l, s, a + kept, gone);
  }

  /** +0300 MSK m=+0.001: the monotonic reading is cut off, and the abbreviation then left as it
      is. */
  lemma OffsetMonotonic(p: Parser, s: string, c: Clock, pre: string, w: Parser, i: nat, sep: string, name: string, rest: string)
    requires AtZoned(p, s, c, pre, w, i, sep, name + (" m=" + rest)) && name != "" && Letters(name)
    requires rest != "" && (rest[0] == '+' || rest[0] == '-') && Unspaced(rest)
    ensures c.Valid() && TimeInv(p, s, |pre|)
    ensures Lays(Tailed(p, s, |pre|), p, s, |s| - 3 - |rest|, pre + c.Laid() + ((sep + "-0700") + (" " + name)), false)
  {
    hide RunTime, Stage, AtWord, Keeps, Lays, Tailed, TimeInv, TimeEndInv, Render, Roles, Commas, TimeFlowInv, Clock.Laid, Clock.Text;
    hide Either, Write, Zone.Text;
    var tail := name + (" m=" + rest);
    var post := (sep + "-0700") + (" " + tail);
    ZonedParts(p, s, c, pre, w, i, sep, tail);
    ZonedName(p, s, c, pre, w, i, sep, name, " m=" + rest);
    var f := i + |name|;
    MonotonicBytes(s, f, rest);
    var v := w.(tzi := i);
    StillKeeps(p, w, c, |pre|, v);
    StageGoesOn(p, s, c, pre, c.Laid(), v, i + 1, post, f, v);
    var u := v.(extra := f, layout := w.layout[..f], dlen := f);
    StillKeeps(p, w, c, |pre|, u);
    Regroup(" ", name, " m=" + rest);
    CutName(w.layout, s, pre + c.Laid(), sep + "-0700", name, " m=" + rest);
    StageParts(p, s, c, pre, c.Laid(), v, f + 1, post);
    StageWrites(p, s, c, pre, c.Laid(), v, f + 1, post, f + 2, u, c.Laid(), (sep + "-0700") + (" " + name));
    CutEnds(p, s, c, pre, u, f, sep, name);
  }

  /** Behind the equals sign. */
  lemma CutEnds(p: Parser, s: string, c: Clock, pre: string, u: Parser, f: nat, sep: string, name: string)
    requires c.Valid() && Stage(p, s, c, pre, c.Laid(), u, f + 3, (sep + "-0700") + (" " + name)) && u.stateTime.TimeWsOffsetWs?
    requires u.dlen == f && u.mslen == 0 && u.offseti == |pre + c.Laid() + sep| && f + 3 < |s| && (s[f + 3] == '+' || s[f + 3] == '-')
    requires forall k :: f + 3 <= k < |s| ==> s[k] != ' ' && s[k] != ':'
    ensures TimeInv(p, s, |pre|)
    ensures Lays(Tailed(p, s, |pre|), p, s, f, pre + c.Laid() + ((sep + "-0700") + (" " + name)), false)
  {
    hide RunTime, Stage, AtWord, Keeps, Lays, Tailed, TimeInv, TimeEndInv, Render, Roles, Commas, TimeFlowInv, Clock.Laid, Clock.Text;
    hide Either, Write, Zone.Text;
    var x := u.(stateTime := TimeWsOffset, extra := f + 2);
    StageParts(p, s, c, pre, c.Laid(), u, f + 3, (sep + "-0700") + (" " + name));
    StillKeeps(p, u, c, |pre|, x);
    StageGoesOn(p, s, c, pre, c.Laid(), u, f + 3, (sep + "-0700") + (" " + name), f + 3, x);
    OffsetEndsAgain(p, s, c, pre, x, f + 4, sep, " " + name);
  }

  lemma MonotonicBytes(s: string, f: nat, rest: string)
    requires f <= |s| && s[f..] == " m=" + rest && rest != "" && Unspaced(rest)
    ensures f + 3 + |rest| == |s| && s[f] == ' ' && s[f + 1] == 'm' && s[f + 2] == '=' && s[f + 3] == rest[0]
    ensures forall k :: f + 3 <= k < |s| ==> s[k] != ' ' && s[k] != ':'
  {
    var t := s[f..];
    assert s[f] == t[0] && s[f + 1] == t[1] && s[f + 2] == t[2] && s[f + 3] == t[3];
    assert s[f + 3..] == t[3..] == rest;
    UnspacedBytes(s, f + 3, rest);
  }

  lemma CutName(l: seq<Cell>, s: string, a: string, sep: string, name: string, gone: string)
    requires Render(l, s) == a + (sep + (" " + (name + gone)))
    ensures |a + sep + " "| + |name| <= |l|
    ensures Render(l[..|a + sep + " "| + |name|], s) == a + (sep + (" " + name))
  {
    hide Render;
    assert a + (sep + (" " + (name + gone))) == (a + (sep + (" " + name))) + gone by { CutWords(a, sep, name, gone); }
    RenderFirst(l, s, a + (sep + (" " + name)), gone);
  }

  lemma CutWords(a: string, sep: string, name: string, gone: string)
    ensures a + (sep + (" " + (name + gone))) == (a + (sep + (" " + name))) + gone
  {}

  // ---------------------------------------------------------------- a space and a zone abbreviation

  /** Letters that are not taken for AM or PM, as those of AMT and PMST are. */
  predicate Abbreviation(name: string) {
    Letters(name) && |name| >= 2 && (name[0] == 'A' || name[0] == 'P' ==> name[1] != 'M')
  }

  lemma NameBytes(s: string, i: nat, name: string, rest: string)
    requires i <= |s| && s[i..] == name + rest && Abbreviation(name)
    ensures i + |name| + |rest| == |s| && s[i + |name|..] == rest && s[i] == name[0] && s[i + 1] == name[1]
    ensures forall k :: i <= k < i + |name| ==> IsLetter(s[k])
  {
    assert s[i..i + |name|] == s[i..][..|name|] == name && s[i + |name|..] == s[i..][|name|..];
    LetterBytes(s, i, name);
  }

  lemma NameWord(p: Parser, s: string, c: Clock, pre: string, w: Parser, i: nat, sep: string, name: string, rest: string)
    returns (k: nat)
    requires AtWord(p, s, c, pre, w, i, sep, name + rest) && Abbreviation(name)
    ensures c.Valid() && TimeInv(p, s, |pre|) && i + |name| + |rest| == |s| && s[i + |name|..] == rest && k <= i + |name|
    ensures var u := w.(tzi := i, stateTime := TimeWsAlpha);
            && Stage(p, s, c, pre, c.Laid(), u, k, sep + (name + rest)) && StillAll(u, s, k, i + |name|)
            && Keeps(p, u, c, |pre|)
  {
    hide RunTime, Stage, AtWord, Keeps, Lays, Tailed, TimeInv, TimeEndInv, Render, Roles, Commas, TimeFlowInv, Clock.Laid, Clock.Text;
    hide Either, Write, Zone.Text;
    WordParts(p, s, c, pre, w, i, sep, name + rest);
    NameBytes(s, i, name, rest);
    var u := w.(tzi := i, stateTime := TimeWsAlpha);
    StillKeeps(p, w, c, |pre|, u);
    if s[i] == 'A' || s[i] == 'P' {
      var v := w.(tzi := i, stateTime := TimeWsAMPMMaybe);
      StillKeeps(p, w, c, |pre|, v);
      StageGoesOn(p, s, c, pre, c.Laid(), w, i, sep + (name + rest), i, v);
      StageGoesOn(p, s, c, pre, c.Laid(), v, i + 1, sep + (name + rest), i + 1, u);
      k := i + 2;
    } else {
      StageGoesOn(p, s, c, pre, c.Laid(), w, i, sep + (name + rest), i, u);
      k := i + 1;
    }
  }

  /** At the end of the string: of four letters the last is cut off the input. */
  lemma NameEnds(p: Parser, s: string, c: Clock, pre: string, w: Parser, i: nat, sep: string, name: string)
    requires AtWord(p, s, c, pre, w, i, sep, name) && Abbreviation(name)
    ensures c.Valid() && TimeInv(p, s, |pre|)
    ensures Lays(Tailed(p, s, |pre|), p, s, if |name| == 4 then |s| - 1 else |s|,
                 pre + c.Laid() + (sep + if |name| == 3 || |name| == 4 then "MST" else name), false)
  {
    hide RunTime, Stage, AtWord, Keeps, Lays, Tailed, TimeInv, TimeEndInv, Render, Roles, Commas, TimeFlowInv, Clock.Laid, Clock.Text;
    hide Either, Write, Zone.Text;
    NothingBack("", name);
    var k := NameWord(p, s, c, pre, w, i, sep, name, "");
    WordParts(p, s, c, pre, w, i, sep, name);
    var v := w.(tzi := i, stateTime := TimeWsAlpha);
    StageParts(p, s, c, pre, c.Laid(), v, k, sep + name);
    if |name| == 3 {
      SpliceTail(w.layout, s, pre + c.Laid(), sep, name, "", "MST");
      StillKeeps(p, w, c, |pre|, v.Set(i, "MST"));
      StageEnds(p, s, c, pre, c.Laid(), v, k, sep + name, v.Set(i, "MST"), sep + "MST");
    } else if |name| == 4 {
      var u := v.(extra := |s| - 1, layout := Write(w.layout, i, "MST")[..|s| - 1], dlen := |s| - 1);
      NothingBack(name[..3], name[3..]);
      assert name == name[..3] + name[3..];
      SpliceTail(w.layout, s, pre + c.Laid(), sep, name[..3], name[3..], "MST");
      CutReads(Write(w.layout, i, "MST"), s, pre + c.Laid(), sep + "MST", name[3..]);
      StillKeeps(p, w, c, |pre|, u);
      StageEnds(p, s, c, pre, c.Laid(), v, k, sep + name, u, sep + "MST");
    } else {
      StageEnds(p, s, c, pre, c.Laid(), v, k, sep + name, v, sep + name);
    }
  }

  lemma SpliceTail(l: seq<Cell>, s: string, a: string, sep: string, w: string, back: string, v: string)
    requires Render(l, s) == a + (sep + (w + back)) && |v| == |w|
    ensures Render(Write(l, |a + sep|, v), s) == a + (sep + v + back)
    ensures a + (sep + v + back) == a + ((sep + v) + back) == a + (sep + (v + back))
    ensures back == "" ==> a + (sep + v + back) == a + (sep + v)
  {
    hide Render, Write;
    Middle(a, sep, v, back);
    SpliceMiddle(l, s, a, sep, w, back, v);
    NothingBack(sep, v);
  }

  /** How an abbreviation is laid out that something follows. */
  function NameFront(name: string): (r: string)
    ensures |r| == |name|
  {
    if |name| == 3 then "MST" else if |name| == 4 then " MST" else name
  }

  lemma SpliceName(l: seq<Cell>, s: string, a: string, sep: string, name: string, back: string)
    requires Render(l, s) == a + (sep + (name + back))
    ensures Render(Either(l, |a + sep|, |name|, 4, " MST", 3, "MST"), s) == a + ((sep + NameFront(name)) + back)
  {
    hide Render, Write;
    Middle(a, sep, name, back);
    if |name| == 3 { SpliceMiddle(l, s, a, sep, name, back, "MST"); }
    if |name| == 4 { SpliceMiddle(l, s, a, sep, name, back, " MST"); }
  }

  /** What a trailing year is laid out as: two or four bytes. */
  function YearLaid(year: string): (r: string)
    ensures |r| == |year|
  {
    if |year| == 2 then "06" else if |year| == 4 then "2006" else year
  }

  lemma SpliceLast(l: seq<Cell>, s: string, a: string, sep: string, year: string)
    requires Render(l, s) == a + (sep + year)
    ensures Render(Either(l, |a + sep|, |year|, 2, "06", 4, "2006"), s) == a + (sep + YearLaid(year))
  {
    hide Render, Write, Either;
    NothingBack(a + sep, year);
    NothingBack(a + sep, YearLaid(year));
    Regroup(a, sep, year);
    Regroup(a, sep, YearLaid(year));
    EitherReads(l, a + sep, year, "", s, 2, "06", 4, "2006");
  }

  /** MST 2009: an abbreviation and a year. */
  lemma NameAndYear(p: Parser, s: string, c: Clock, pre: string, w: Parser, i: nat, sep: string, name: string, year: string)
    requires AtWord(p, s, c, pre, w, i, sep, name + (" " + year)) && Abbreviation(name)
    ensures c.Valid() && TimeInv(p, s, |pre|)
    ensures Lays(Tailed(p, s, |pre|), p, s, |s|, pre + c.Laid() + ((sep + NameFront(name) + " ") + YearLaid(year)), false)
  {
    hide RunTime, Stage, AtWord, Keeps, Lays, Tailed, TimeInv, TimeEndInv, Render, Roles, Commas, TimeFlowInv, Clock.Laid, Clock.Text;
    hide Either, Write, Zone.Text;
    var f := i + |name|;
    var k := NameWord(p, s, c, pre, w, i, sep, name, " " + year);
    WordParts(p, s, c, pre, w, i, sep, name + (" " + year));
    assert s[f] == s[f..][0];
    var v := w.(tzi := i, stateTime := TimeWsAlpha);
    StageParts(p, s, c, pre, c.Laid(), v, k, sep + (name + (" " + year)));
    var u := v.(stateTime := TimeWsAlphaWs, yeari := f + 1, tzlen := |name|,
                layout := Either(w.layout, i, |name|, 4, " MST", 3, "MST"));
    StillKeeps(p, w, c, |pre|, u);
    SpliceName(w.layout, s, pre + c.Laid(), sep, name, " " + year);
    Regroup(sep + NameFront(name), " ", year);
    StageWrites(p, s, c, pre, c.Laid(), v, k, sep + (name + (" " + year)), f, u, c.Laid(), (sep + NameFront(name) + " ") + year);
    var x := u.(yearlen := |year|).SetYear();
    StillKeeps(p, w, c, |pre|, x);
    SpliceLast(u.layout, s, pre + c.Laid(), sep + NameFront(name) + " ", year);
    StageEnds(p, s, c, pre, c.Laid(), u, f + 1, (sep + NameFront(name) + " ") + year, x,
              (sep + NameFront(name) + " ") + YearLaid(year));
  }

  /** 2008: a year. */
  lemma YearWord(p: Parser, s: string, c: Clock, pre: string, w: Parser, i: nat, sep: string, year: string)
    requires AtWord(p, s, c, pre, w, i, sep, year) && year != "" && IsDigit(year[0])
    ensures c.Valid() && TimeInv(p, s, |pre|)
    ensures Lays(Tailed(p, s, |pre|), p, s, |s|, pre + c.Laid() + (sep + YearLaid(year)), false)
  {
    hide RunTime, Stage, AtWord, Keeps, Lays, Tailed, TimeInv, TimeEndInv, Render, Roles, Commas, TimeFlowInv, Clock.Laid, Clock.Text;
    hide Either, Write, Zone.Text;
    WordParts(p, s, c, pre, w, i, sep, year);
    assert s[i] == s[i..][0];
    var u := w.(stateTime := TimeWsYear, yeari := i);
    StillKeeps(p, w, c, |pre|, u);
    StageGoesOn(p, s, c, pre, c.Laid(), w, i, sep + year, i, u);
    var x := u.(yearlen := |year|).SetYear();
    StillKeeps(p, w, c, |pre|, x);
    StageParts(p, s, c, pre, c.Laid(), u, i + 1, sep + year);
    SpliceLast(u.layout, s, pre + c.Laid(), sep, year);
    StageEnds(p, s, c, pre, c.Laid(), u, i + 1, sep + year, x, sep + YearLaid(year));
  }

  /** The loop stands behind the sign of an offset that follows an abbreviation. */
  lemma NameSign(p: Parser, s: string, c: Clock, pre: string, w: Parser, i: nat, sep: string, name: string, t: string)
    returns (u: Parser)
    requires AtWord(p, s, c, pre, w, i, sep, name + t) && Abbreviation(name) && t != "" && (t[0] == '+' || t[0] == '-')
    ensures c.Valid() && TimeInv(p, s, |pre|) && i + |name| + |t| == |s| && s[i + |name|..] == t
    ensures Stage(p, s, c, pre, c.Laid(), u, i + |name| + 1, (sep + NameFront(name)) + t) && Keeps(p, u, c, |pre|)
    ensures Render(u.layout, s) == pre + c.Laid() + ((sep + NameFront(name)) + t) && |u.layout| == |s|
    ensures u.stateTime.TimeWsAlphaZoneOffset? && u.dlen == |s| && u.mslen == 0 && u.yeari == p.yeari && !u.zulu
    ensures u.offseti == i + |name| == |pre + c.Laid() + (sep + NameFront(name))|
  {
    hide RunTime, Stage, AtWord, Keeps, Lays, Tailed, TimeInv, TimeEndInv, Render, Roles, Commas, TimeFlowInv, Clock.Laid, Clock.Text;
    hide Either, Write, Zone.Text;
    var f := i + |name|;
    var k := NameWord(p, s, c, pre, w, i, sep, name, t);
    WordParts(p, s, c, pre, w, i, sep, name + t);
    assert s[f] == s[f..][0];
    var v := w.(tzi := i, stateTime := TimeWsAlpha);
    StageParts(p, s, c, pre, c.Laid(), v, k, sep + (name + t));
    u := v.(stateTime := TimeWsAlphaZoneOffset, offseti := f, tzlen := |name|,
            layout := Either(w.layout, i, |name|, 4, " MST", 3, "MST"));
    StillKeeps(p, w, c, |pre|, u);
    SpliceName(w.layout, s, pre + c.Laid(), sep, name, t);
    StageWrites(p, s, c, pre, c.Laid(), v, k, sep + (name + t), f, u, c.Laid(), (sep + NameFront(name)) + t);
  }

  /** UTC+0100 or UTC-05. */
  lemma NameAndOffset(p: Parser, s: string, c: Clock, pre: string, w: Parser, i: nat, sep: string, name: string, z: Zone)
    requires AtWord(p, s, c, pre, w, i, sep, name + z.Text()) && Abbreviation(name) && z.Valid() && !z.colon
    ensures c.Valid() && TimeInv(p, s, |pre|)
    ensures Lays(Tailed(p, s, |pre|), p, s, |s|, pre + c.Laid() + (sep + NameFront(name) + z.Laid()), false)
  {
    hide RunTime, Stage, AtWord, Keeps, Lays, Tailed, TimeInv, TimeEndInv, Render, Roles, Commas, TimeFlowInv, Clock.Laid, Clock.Text;
    hide Either, Write, Zone.Text;
    Signed(z);
    var u := NameSign(p, s, c, pre, w, i, sep, name, z.Text());
    var front := sep + NameFront(name);
    ZoneBytes(z, s, i + |name|, |s|);
    var x := u.Set(u.offseti, z.Laid());
    StillKeeps(p, u, c, |pre|, x);
    NothingBack("", z.Text());
    NothingBack(z.Text(), "");
    SpliceTail(u.layout, s, pre + c.Laid(), front, z.Text(), "", z.Laid());
    StageEnds(p, s, c, pre, c.Laid(), u, i + |name| + 1, front + z.Text(), x, front + z.Laid());
  }

  lemma NameOffsetSpace(p: Parser, s: string, c: Clock, pre: string, w: Parser, i: nat, sep: string, name: string, z: Zone,
                        rest: string) returns (u: Parser)
    requires AtWord(p, s, c, pre, w, i, sep, name + (z.Text() + (" " + rest))) && Abbreviation(name) && FourDigits(z)
    ensures var front := sep + NameFront(name) + "-0700";
            && c.Valid() && TimeInv(p, s, |pre|)
            && i + |name| + 6 + |rest| == |s| && s[i + |name| + 6..] == rest && i + |name| + 6 == |pre + c.Laid() + (front + " ")|
            && Stage(p, s, c, pre, c.Laid(), u, i + |name| + 6, front + (" " + rest))
            && Keeps(p, u, c, |pre|) && Render(u.layout, s) == pre + c.Laid() + (front + (" " + rest)) && |u.layout| == |s|
    ensures u.stateTime.TimeWsAlphaZoneOffsetWs? && u.dlen == |s| && u.mslen == 0 && !u.zulu
    ensures u.yeari == if p.yeari == 0 then i + |name| + 6 else p.yeari
  {
    hide RunTime, Stage, AtWord, Keeps, Lays, Tailed, TimeInv, TimeEndInv, Render, Roles, Commas, TimeFlowInv, Clock.Laid, Clock.Text;
    hide Either, Write, Zone.Text;
    var t := z.Text() + (" " + rest);
    Signed(z);
    assert t[0] == z.Text()[0];
    var v := NameSign(p, s, c, pre, w, i, sep, name, t);
    var f := i + |name|;
    OffsetBytes(s, f, z, rest);
    StageParts(p, s, c, pre, c.Laid(), v, f + 1, (sep + NameFront(name)) + t);
    u := v.(yeari := if v.yeari == 0 then f + 6 else v.yeari, stateTime := TimeWsAlphaZoneOffsetWs).Set(f, "-0700");
    StillKeeps(p, v, c, |pre|, u);
    SpliceMiddle(v.layout, s, pre + c.Laid(), sep + NameFront(name), z.Text(), " " + rest, "-0700");
    StageWrites(p, s, c, pre, c.Laid(), v, f + 1, (sep + NameFront(name)) + t, f + 5, u, c.Laid(),
                (sep + NameFront(name) + "-0700") + (" " + rest));
  }

  /** GMT+0100 (GMT Daylight Time): what is no digit is cut off, with all that follows. */
  lemma NameOffsetComment(p: Parser, s: string, c: Clock, pre: string, w: Parser, i: nat, sep: string, name: string, z: Zone,
                          rest: string)
    requires AtWord(p, s, c, pre, w, i, sep, name + (z.Text() + (" " + rest))) && Abbreviation(name) && FourDigits(z)
    requires rest != "" && !IsDigit(rest[0])
    ensures c.Valid() && TimeInv(p, s, |pre|)
    ensures Lays(Tailed(p, s, |pre|), p, s, |s| - 1 - |rest|, pre + c.Laid() + (sep + NameFront(name) + "-0700"), false)
  {
    hide RunTime, Stage, AtWord, Keeps, Lays, Tailed, TimeInv, TimeEndInv, Render, Roles, Commas, TimeFlowInv, Clock.Laid, Clock.Text;
    hide Either, Write, Zone.Text;
    var u := NameOffsetSpace(p, s, c, pre, w, i, sep, name, z, rest);
    var front := sep + NameFront(name) + "-0700";
    var g := i + |name| + 6;
    assert s[g] == s[g..][0];
    var v := u.(extra := g - 1, stateTime := TimeWsAlphaZoneOffsetWsExtra);
    StillKeeps(p, u, c, |pre|, v);
    StageGoesOn(p, s, c, pre, c.Laid(), u, g, front + (" " + rest), g, v);
    var x := v.(layout := v.layout[..g - 1], dlen := g - 1);
    StillKeeps(p, u, c, |pre|, x);
    CutReads(v.layout, s, pre + c.Laid(), front, " " + rest);
    StageEnds(p, s, c, pre, c.Laid(), v, g + 1, front + (" " + rest), x, front);
  }

  /** UTC+0100 2015: with a year, for a date without one. */
  lemma NameOffsetYear(p: Parser, s: string, c: Clock, pre: string, w: Parser, i: nat, sep: string, name: string, z: Zone,
                       year: string)
    requires AtWord(p, s, c, pre, w, i, sep, name + (z.Text() + (" " + year))) && Abbreviation(name) && FourDigits(z)
    requires Digits(year) && |year| == 4 && p.yeari == 0
    ensures c.Valid() && TimeInv(p, s, |pre|)
    ensures Lays(Tailed(p, s, |pre|), p, s, |s|, pre + c.Laid() + ((sep + NameFront(name) + "-0700") + (" " + "2006")), false)
  {
    hide RunTime, Stage, AtWord, Keeps, Lays, Tailed, TimeInv, TimeEndInv, Render, Roles, Commas, TimeFlowInv, Clock.Laid, Clock.Text;
    hide Either, Write, Zone.Text;
    var u := NameOffsetSpace(p, s, c, pre, w, i, sep, name, z, year);
    var front := sep + NameFront(name) + "-0700";
    var g := i + |name| + 6;
    assert s[g..g + 4] == year;
    DigitBytes(s, g, year);
    NameYearDigits(p, s, c, pre, u, g, front, year);
  }

  lemma NameYearDigits(p: Parser, s: string, c: Clock, pre: string, u: Parser, g: nat, front: string, year: string)
    requires c.Valid() && Stage(p, s, c, pre, c.Laid(), u, g, front + (" " + year)) && Keeps(p, u, c, |pre|)
    requires Render(u.layout, s) == pre + c.Laid() + (front + (" " + year)) && |u.layout| == |s| == g + 4
    requires u.stateTime.TimeWsAlphaZoneOffsetWs? && u.dlen == |s| && u.mslen == 0 && !u.zulu && u.yeari == g
    requires g == |pre + c.Laid() + (front + " ")| && |year| == 4 && (forall k :: g <= k < |s| ==> IsDigit(s[k]))
    ensures TimeInv(p, s, |pre|)
    ensures Lays(Tailed(p, s, |pre|), p, s, |s|, pre + c.Laid() + (front + (" " + "2006")), false)
  {
    hide RunTime, Stage, AtWord, Keeps, Lays, Tailed, TimeInv, TimeEndInv, Render, Roles, Commas, TimeFlowInv, Clock.Laid, Clock.Text;
    hide Either, Write, Zone.Text;
    var post, end := front + (" " + year), front + (" " + "2006");
    var v := u.(stateTime := TimeWsAlphaZoneOffsetWsYear);
    var x := v.(yearlen := 4, layout := Write(u.layout, g, "2006"));
    StillKeeps(p, u, c, |pre|, v);
    StillKeeps(p, u, c, |pre|, v.(yearlen := 2));
    StillKeeps(p, u, c, |pre|, v.(yearlen := 3));
    StillKeeps(p, u, c, |pre|, x);
    StageGoesOn(p, s, c, pre, c.Laid(), u, g, post, g, v);
    StageGoesOn(p, s, c, pre, c.Laid(), v, g + 1, post, g + 1, v.(yearlen := 2));
    StageGoesOn(p, s, c, pre, c.Laid(), v.(yearlen := 2), g + 2, post, g + 2, v.(yearlen := 3));
    SpliceYear(u.layout, s, pre + c.Laid(), front, year);
    StageParts(p, s, c, pre, c.Laid(), u, g, post);
    StageWrites(p, s, c, pre, c.Laid(), v.(yearlen := 3), g + 3, post, g + 3, x, c.Laid(), end);
    StageEnds(p, s, c, pre, c.Laid(), x, g + 4, end, x, end);
  }
}

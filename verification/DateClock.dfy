// A clock behind a date, and whatever follows it: what the time loop and the switches after
// it make of them.
module DateClock {
  import opened DateText
  import opened DateParser
  import opened DateWalk
  import opened DateSpelling

  /** Hours and minutes, and seconds unless s is empty. */
  datatype Clock = Clock(h: string, m: string, s: string)
  {
    predicate Valid() { OneOrTwo(h) && OneOrTwo(m) && (s == "" || OneOrTwo(s)) }

    function Text(): string { h + ":" + m + (if s == "" then "" else ":" + s) }

    /** What Go calls it. */
    function Laid(): (r: string)
      requires Valid()
      ensures |r| == |Text()|
    {
      (if |h| == 2 then "15" else "3") + Behind()
    }

    function Behind(): (r: string)
      requires Valid()
      ensures |h| + |r| == |Text()| && r[0] == ':' && (s != "" ==> r[|m| + 1] == ':')
    {
      ":" + (if |m| == 2 then "04" else "4") + (if s == "" then "" else ":" + (if |s| == 2 then "05" else "5"))
    }

    function MinuteAt(j: nat): nat { j + |h| + 1 }

    function SecondAt(j: nat): nat { MinuteAt(j) + |m| + 1 }
  }

  /** The clock is what stands in s from j up to e. */
  ghost predicate Stands(c: Clock, s: string, j: nat, e: nat) {
    && c.Valid() && e == j + |c.Text()| <= |s|
    && s[j..e] == c.Text()
  }

  lemma ClockBytes(c: Clock, s: string, j: nat, e: nat)
    requires Stands(c, s, j, e)
    ensures c.Valid() && c.MinuteAt(j) < e <= |s|
    ensures forall k :: j <= k < j + |c.h| ==> IsDigit(s[k])
    ensures s[j + |c.h|] == ':'
    ensures forall k :: c.MinuteAt(j) <= k < c.MinuteAt(j) + |c.m| ==> IsDigit(s[k])
    ensures if c.s == "" then e == c.MinuteAt(j) + |c.m| else s[c.MinuteAt(j) + |c.m|] == ':' && e == c.SecondAt(j) + |c.s|
    ensures c.s != "" ==> forall k :: c.SecondAt(j) <= k < e ==> IsDigit(s[k])
  {
    var t := c.Text();
    assert forall k :: 0 <= k < |t| ==> s[j + k] == t[k];
    forall k | j <= k < j + |c.h| ensures IsDigit(s[k]) { assert t[k - j] == c.h[k - j]; }
    assert t[|c.h|] == ':';
    forall k | c.MinuteAt(j) <= k < c.MinuteAt(j) + |c.m| ensures IsDigit(s[k]) {
      assert t[k - j] == c.m[k - c.MinuteAt(j)];
    }
    if c.s != "" {
      assert t[c.MinuteAt(0) + |c.m|] == ':';
      forall k | c.SecondAt(j) <= k < e ensures IsDigit(s[k]) { assert t[k - j] == c.s[k - c.SecondAt(j)]; }
    }
  }

  /** Nothing of a clock has been read. */
  predicate Unread(p: Parser) {
    && p.stateTime.TimeStart? && !p.zulu
    && p.houri == 0 && p.hourlen == 0 && p.mini == 0 && p.minlen == 0 && p.seci == 0 && p.seclen == 0
    && p.msi == 0 && p.mslen == 0 && p.offseti == 0 && p.tzi == 0 && p.tzlen == 0 && p.extra == 0
  }

  /** The parser behind the clock. */
  function Read(p: Parser, c: Clock, j: nat): Parser {
    var q := p.(houri := j, hourlen := |c.h|, mini := c.MinuteAt(j));
    if c.s == "" then q else q.(minlen := |c.m|, seci := c.SecondAt(j))
  }

  lemma HourStep(p: Parser, s: string, j: nat)
    requires TimeAt(p, s, j) && p.stateTime.TimeStart? && p.houri == 0 && IsDigit(s[j])
    ensures TimeStep(p, s, j) == Next(p.(houri := j), s, j + 1) && TimeInv(p.(houri := j), s, j + 1)
  {
    hide Commas, TimeFlowInv;
  }

  lemma ClockRun(p: Parser, s: string, c: Clock, j: nat, e: nat)
    requires TimeInv(p, s, j) && Unread(p) && Stands(c, s, j, e)
    ensures TimeInv(Read(p, c, j), s, e) && RunTime(p, s, j) == RunTime(Read(p, c, j), s, e)
  {
    hide TimeStep, Roles, Commas, Stands, TimeFlowInv;
    ClockBytes(c, s, j, e);
    var a := p.(houri := j);
    HourStep(p, s, j);
    var b := a.(hourlen := |c.h|, mini := c.MinuteAt(j));
    TimeHop(a, s, j + 1, j + |c.h|, b);
    if c.s == "" {
      TimePasses(b, s, c.MinuteAt(j), e);
    } else {
      var d := b.(minlen := |c.m|, seci := c.SecondAt(j));
      TimeHop(b, s, c.MinuteAt(j), c.MinuteAt(j) + |c.m|, d);
      TimePasses(d, s, c.SecondAt(j), e);
    }
  }

  // ---------------------------------------------------------------- laying out the clock

  /** The spans of the clock's parts, where one that is open ends at `end`. */
  predicate Spans(q: Parser, c: Clock, j: nat, end: int) {
    && q.houri == j && q.hourlen == |c.h| && q.mini == c.MinuteAt(j)
    && (if q.minlen == 0 then end - q.mini else q.minlen) == |c.m|
    && (if c.s == "" then q.seci == 0
        else q.seci == c.SecondAt(j) && (if q.seclen == 0 then end - q.seci else q.seclen) == |c.s|)
  }

  /** The colons of the clock are there, whatever stands between them. */
  predicate Colons(c: Clock, x: string) {
    && |x| == |c.Text()| && x[|c.h|] == ':' && (c.s != "" ==> x[c.MinuteAt(0) + |c.m|] == ':')
  }

  lemma ClockReads(q: Parser, end: int, s: string, c: Clock, pre: string, x: string, post: string)
    requires c.Valid() && Spans(q, c, |pre|, end) && pre != "" && Colons(c, x)
    requires Render(q.layout, s) == pre + x + post
    ensures Render(q.CoalesceClock(end).layout, s) == pre + c.Laid() + post
  {
    hide Write, Render, Over;
    var l1 := Either(q.layout, q.houri, q.hourlen, 2, "15", 1, "3");
    RenderWrite(q.layout, q.houri, HourCode(c), s);
    RenderWrite(l1, q.mini, MinuteCode(c), s);
    if c.s != "" { RenderWrite(Write(l1, q.mini, MinuteCode(c)), q.seci, SecondCode(c), s); }
    ClockOver(c, pre, x, post);
  }

  function HourCode(c: Clock): string { if |c.h| == 2 then "15" else "3" }
  function MinuteCode(c: Clock): string { if |c.m| == 2 then "04" else "4" }
  function SecondCode(c: Clock): string { if |c.s| == 2 then "05" else "5" }

  function Overlaid(c: Clock, t: string, j: nat): (r: string)
    ensures |r| == |t|
  {
    var t2 := Over(Over(t, j, HourCode(c)), c.MinuteAt(j), MinuteCode(c));
    if c.s == "" then t2 else Over(t2, c.SecondAt(j), SecondCode(c))
  }

  lemma ClockOver(c: Clock, pre: string, x: string, post: string)
    requires c.Valid() && Colons(c, x)
    ensures Overlaid(c, pre + x + post, |pre|) == pre + c.Laid() + post
  {
    hide Overlaid, Colons;
    var t, r := pre + x + post, pre + c.Laid() + post;
    assert |x| == |c.Laid()| by { ColonsLength(c, x); }
    forall k | 0 <= k < |t| ensures Overlaid(c, t, |pre|)[k] == r[k] {
      OverlaidAt(c, t, |pre|, k);
      if |pre| <= k < |pre| + |x| { LaidAt(c, x, k - |pre|); }
    }
  }

  lemma ColonsLength(c: Clock, x: string)
    requires Colons(c, x)
    ensures |x| == |c.Text()|
  {}

  lemma OverlaidAt(c: Clock, t: string, j: nat, k: nat)
    requires c.Valid() && j + |c.Text()| <= |t| && k < |t|
    ensures Overlaid(c, t, j)[k] == if j <= k < j + |c.Text()| then CodeAt(c, k - j, t[k]) else t[k]
  {
    hide Over;
    var t1 := Over(t, j, HourCode(c));
    var t2 := Over(t1, c.MinuteAt(j), MinuteCode(c));
    OverAt(t, j, HourCode(c), k);
    OverAt(t1, c.MinuteAt(j), MinuteCode(c), k);
    if c.s != "" { OverAt(t2, c.SecondAt(j), SecondCode(c), k); }
  }

  /** The k-th byte of the clock's layout, over x. */
  function CodeAt(c: Clock, k: nat, x: char): char
    requires c.Valid() && k < |c.Text()|
  {
    if k < |c.h| then HourCode(c)[k]
    else if c.MinuteAt(0) <= k < c.MinuteAt(0) + |c.m| then MinuteCode(c)[k - c.MinuteAt(0)]
    else if c.SecondAt(0) <= k then SecondCode(c)[k - c.SecondAt(0)] else x
  }

  lemma LaidAt(c: Clock, x: string, k: nat)
    requires c.Valid() && Colons(c, x) && k < |x|
    ensures c.Laid()[k] == CodeAt(c, k, x[k])
  {}
}

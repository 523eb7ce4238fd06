// The date parser as a transition function on values.  One function per state
// of the two scanning loops, the runs of both loops, and parseTime itself.
module DateParser {
  import opened DateText
  import opened Int64

  datatype DateState =
    | DateStart | DateDigit | DateDigitSt
    | DateYearDash | DateYearDashAlphaDash | DateYearDashDash
    | DateYearDashDashWs | DateYearDashDashT | DateYearDashDashOffset
    | DateDigitDash | DateDigitDashAlpha | DateDigitDashAlphaDash
    | DateDigitDot | DateDigitDotDot
    | DateDigitSlash | DateDigitYearSlash | DateDigitSlashAlpha | DateDigitColon
    | DateDigitWs | DateDigitWsMoYear | DateDigitWsMolong
    | DateAlpha | DateAlphaWs | DateAlphaWsDigit
    | DateAlphaWsDigitMore | DateAlphaWsDigitMoreWs | DateAlphaWsDigitMoreWsYear
    | DateAlphaWsMonth | DateAlphaWsDigitYearmaybe | DateAlphaWsMonthMore
    | DateAlphaWsMonthSuffix | DateAlphaWsMore | DateAlphaWsAlpha
    | DateAlphaPeriodWsDigit | DateWeekdayComma | DateWeekdayAbbrevComma

  datatype TimeState =
    | TimeIgnore | TimeStart | TimeWs
    | TimeWsAlpha | TimeWsAlphaWs
    | TimeWsAlphaZoneOffset | TimeWsAlphaZoneOffsetWs
    | TimeWsAlphaZoneOffsetWsYear | TimeWsAlphaZoneOffsetWsExtra
    | TimeWsAMPMMaybe | TimeWsAMPM
    | TimeWsOffset | TimeWsOffsetWs | TimeWsOffsetColonAlpha | TimeWsOffsetColon
    | TimeWsYear | TimeOffset | TimeOffsetColon
    | TimePeriod | TimePeriodOffset | TimePeriodOffsetColon | TimePeriodOffsetColonWs
    | TimePeriodWs | TimePeriodWsAlpha | TimePeriodWsOffset
    | TimePeriodWsOffsetWsAlpha | TimePeriodWsOffsetColon | TimePeriodWsOffsetColonAlpha
    | TimeZ | TimeZDigit

  datatype Loc = NoLoc | UTC | Local | Zone(name: string)

  datatype Options = Options(preferMonthFirst: bool, retry: bool)

  const DEFAULTS := Options(true, false)

  /** The kinds of error parseTime makes; their texts quote the input. */
  datatype Error = Unknown | TooShort | ZoneOffset

  /** The parser record.  `layout` is the buffer the source calls format.  The
      field datestr is always the first `dlen` bytes of the local variable of the
      same name, so only its length is kept here. */
  datatype Parser = Parser(
    zulu: bool, ambiguousMD: bool,
    stateDate: DateState, stateTime: TimeState,
    layout: seq<Cell>, dlen: nat, fullMonth: string,
    skip: int, extra: int, part1Len: int,
    yeari: int, yearlen: int, moi: int, molen: int, dayi: int, daylen: int,
    houri: int, hourlen: int, mini: int, minlen: int, seci: int, seclen: int,
    msi: int, mslen: int, offseti: int, tzi: int, tzlen: int,
    t: Option<int>)
  {
    function Set(start: int, val: string): Parser {
      this.(layout := Write(layout, start, val))
    }

    function SetMonth(): Parser {
      this.(layout := Either(layout, moi, molen, 2, "01", 1, "1"))
    }

    function SetDay(): Parser {
      this.(layout := Either(layout, dayi, daylen, 2, "02", 1, "2"))
    }

    function SetYear(): Parser {
      this.(layout := Either(layout, yeari, yearlen, 2, "06", 4, "2006"))
    }

    function CoalesceDate(end: int): Parser {
      var yl := if yeari > 0 && yearlen == 0 then end - yeari else yearlen;
      var ml := if moi > 0 && molen == 0 then end - moi else molen;
      var dl := if dayi > 0 && daylen == 0 then end - dayi else daylen;
      var l1 := if yeari > 0 then Either(layout, yeari, yl, 2, "06", 4, "2006") else layout;
      var l2 := if moi > 0 && molen == 0 then Either(l1, moi, ml, 2, "01", 1, "1") else l1;
      var l3 := if dayi > 0 && daylen == 0 then Either(l2, dayi, dl, 2, "02", 1, "2") else l2;
      this.(yearlen := yl, molen := ml, daylen := dl, layout := l3)
    }

    /** Hours, minutes and seconds. */
    function CoalesceClock(end: int): Parser {
      var ml := if mini > 0 && minlen == 0 then end - mini else minlen;
      var sl := if seci > 0 && seclen == 0 then end - seci else seclen;
      var l1 := if houri > 0 then Either(layout, houri, hourlen, 2, "15", 1, "3") else layout;
      var l2 := if mini > 0 then Write(l1, mini, if ml == 2 then "04" else "4") else l1;
      var l3 := if seci > 0 then Write(l2, seci, if sl == 2 then "05" else "5") else l2;
      this.(minlen := ml, seclen := sl, layout := l3)
    }

    /** The milliseconds run is written with no bounds test of its own. */
    function CoalesceTime(end: int): Parser
      requires FractionFits(this)
    {
      var c := CoalesceClock(end);
      c.(layout := if msi > 0 && mslen > 0 then Zeros(c.layout, msi, mslen) else c.layout)
    }

    /** The layout and datestr are cut together. */
    function TrimExtra(): Parser {
      var n := if 0 < extra < |layout| then extra else |layout|;
      this.(layout := layout[..n], dlen := if n < |layout| then n else dlen)
    }
  }

  /** Writes v1 where the field is n1 long, v2 where it is n2 long, else nothing. */
  function Either(l: seq<Cell>, start: int, len: int, n1: int, v1: string, n2: int, v2: string): (r: seq<Cell>)
    ensures |r| == |l|
  {
    if len == n1 then Write(l, start, v1) else if len == n2 then Write(l, start, v2) else l
  }

  predicate NextIs(s: string, i: nat, b: char) {
    |s| > i + 1 && s[i + 1] == b
  }

  function Zeros(l: seq<Cell>, start: nat, n: nat): (r: seq<Cell>)
    requires start + n <= |l|
    ensures |r| == |l|
  {
    l[..start] + seq(n, _ => Put('0')) + l[start + n..]
  }

  /** The parser of an input of n bytes. */
  function NewParser(n: nat): Parser {
    Parser(false, false, DateStart, TimeIgnore,
           Fresh(n), n, "", 0, 0, 0,
           0, 0, 0, 0, 0, 0,
           0, 0, 0, 0, 0, 0,
           0, 0, 0, 0, 0, None)
  }

  datatype Result = Result(p: Option<Parser>, err: Option<Error>)

  /** What one turn of a scanning loop does.
      Next: go round again at index i.  Break: leave the loop at index i.
      Restart: return parseTime(s), with the caller's options or with none.
      Return: return a result directly.
      `ds` is the local variable datestr at that point. */
  datatype Flow =
    | Next(p: Parser, ds: string, i: int)
    | Break(p: Parser, ds: string, i: int)
    | Restart(s: string, keepOptions: bool, ds: string)
    | Return(res: Result)

  function Fail(): Flow { Return(Result(None, Some(Unknown))) }

  // ---------------------------------------------------------------- invariants

  predicate MonthFamily(d: DateState) {
    d.DateAlphaWsMonth? || d.DateAlphaWsMore? || d.DateAlphaWsMonthMore? || d.DateAlphaWsMonthSuffix?
  }

  predicate AmbiguousFamily(d: DateState) {
    d.DateDigitSlash? || d.DateDigitColon? || d.DateDigitDot? || d.DateDigitDotDot? || d.DateDigitDashAlphaDash?
  }

  /** Which states may carry a full month name, a skipped prefix, or the ambiguous mark. */
  ghost predicate Roles(p: Parser) {
    && (p.fullMonth != "" ==> MonthFamily(p.stateDate))
    && (p.skip != 0 ==> p.skip > 0 && p.stateDate.DateWeekdayComma?)
    && (p.ambiguousMD ==> AmbiguousFamily(p.stateDate))
  }

  /** How far the loop must have come to be in a state. */
  function Depth(d: DateState): nat {
    match d
    case DateStart => 0
    case DateAlphaWs => 2
    case DateAlphaWsDigit => 3
    case DateAlphaPeriodWsDigit => 4
    case DateAlphaWsDigitYearmaybe => 4
    case DateDigitSt => 7
    case _ => 1
  }

  /** What holds when the date loop is left. */
  ghost predicate DateEndInv(p: Parser, s: string, i: int) {
    && p.dlen == |s| && |p.layout| == |s| && p.t.None?
    && p.msi == 0 && p.mslen == 0
    && (p.stateTime.TimeIgnore? || p.stateTime.TimeStart?)
    && (p.stateTime.TimeStart? ==> 1 <= i && Accepting(p.stateDate))
    && (p.fullMonth != "" ==> |p.fullMonth| < i && |p.fullMonth| < |s|)
    && 0 <= i
    && Roles(p)
  }

  /** What every reachable state of the date loop satisfies. */
  ghost predicate DateInv(p: Parser, s: string, i: int) {
    && DateEndInv(p, s, i) && Depth(p.stateDate) <= i
    && (p.stateTime.TimeStart? ==>
        p.stateDate.DateAlphaWsDigitYearmaybe? || p.stateDate.DateDigitWsMoYear? || p.stateDate.DateDigitWsMolong?)
  }

  ghost predicate DateAt(p: Parser, s: string, i: int) {
    0 <= i < |s| && DateInv(p, s, i)
  }

  /** Suffix rewinds do not advance, but the suffix state is never left. */
  ghost predicate DateProgress(p: Parser, i: int, q: Parser, j: int) {
    if p.stateDate.DateAlphaWsMonthSuffix? then q.stateDate.DateAlphaWsMonthSuffix? && j > i
    else j > i || (q.stateDate.DateAlphaWsMonthSuffix? && j >= i)
  }

  /** How far the loop steps back when it leaves from a state. */
  function Rewind(d: DateState): nat {
    if d.DateDigitSt? then 1 else if d.DateAlphaWsDigitYearmaybe? then 3 else 0
  }

  /** How a date starts: 0 not read yet, 1 with a digit, 2 with a letter. */
  function Kind(d: DateState): nat {
    match d
    case DateStart => 0
    case DateDigit | DateDigitSt | DateYearDash | DateYearDashAlphaDash | DateYearDashDash
       | DateYearDashDashWs | DateYearDashDashT | DateYearDashDashOffset
       | DateDigitDash | DateDigitDashAlpha | DateDigitDashAlphaDash
       | DateDigitDot | DateDigitDotDot | DateDigitSlash | DateDigitYearSlash | DateDigitSlashAlpha
       | DateDigitColon | DateDigitWs | DateDigitWsMoYear | DateDigitWsMolong => 1
    case _ => 2
  }

  ghost predicate KindKept(p: Parser, q: Parser) {
    p.stateDate.DateStart? || Kind(q.stateDate) == Kind(p.stateDate)
  }

  ghost predicate DateFlowInv(f: Flow, p: Parser, s: string, i: int) {
    match f
    case Next(q, d, j) => d == s && DateInv(q, s, j) && DateProgress(p, i, q, j) && KindKept(p, q)
    case Break(q, d, j) => d == s && DateEndInv(q, s, j) && KindKept(p, q) && j >= i - Rewind(p.stateDate)
    case Restart(t, keep, d) => |t| < |s| && (d == s || (keep && d == t)) && Kind(p.stateDate) == 2
    case Return(res) =>
      && res.err.Some?
      && (res.p.Some? ==> Ready(res.p.value) && res.p.value.t.None? && 0 < res.p.value.dlen <= |s| && KindKept(p, res.p.value))
  }

  /** What a finished parser satisfies, so that parse() stays inside its buffers. */
  ghost predicate Ready(p: Parser) {
    && (p.fullMonth != "" ==> |p.fullMonth| <= |p.layout|)
    && (p.skip != 0 ==> p.skip > 0 && |p.layout| == p.dlen && p.fullMonth == "")
    && (p.ambiguousMD ==> p.skip == 0 && p.fullMonth == "" && AmbiguousFamily(p.stateDate))
  }

  /** What holds when the time loop is left. */
  ghost predicate TimeEndInv(p: Parser, ds: string, i: int) {
    && 1 <= i
    && |p.layout| == p.dlen <= |ds| && p.t.None?
    && Roles(p)
    && (p.stateTime.TimeStart? ==> p.dlen == |ds|)
    && (p.stateTime.TimeOffset? ==> 0 <= p.offseti <= |ds|)
    && (p.stateTime.TimePeriod? ==> 0 < p.msi <= i <= |p.layout| == |ds|)
    && FractionFits(p)
    && (p.stateTime.TimeWsAlpha? || p.stateTime.TimeWsAlphaZoneOffsetWsExtra? ==> p.mslen == 0)
    && (p.stateTime.TimeWsAlphaZoneOffsetWsExtra? ==> |p.fullMonth| <= p.extra)
    && (p.stateTime.TimeWsAlpha? ==> |p.fullMonth| < |p.layout|)
    && (p.fullMonth != "" ==> |p.fullMonth| < i && |p.fullMonth| <= |p.layout|)
  }

  predicate NoFraction(t: TimeState) {
    t.TimeWs? || t.TimeWsAlphaZoneOffset? || t.TimeWsAlphaZoneOffsetWs?
    || t.TimeWsAMPMMaybe? || t.TimeWsOffset? || t.TimeWsOffsetWs?
  }

  /** What every reachable state of the time loop satisfies.  Bytes of the buffer
      are written for the fraction only inside it, even once it has been cut. */
  ghost predicate TimeInv(p: Parser, ds: string, i: int) {
    && TimeEndInv(p, ds, i)
    && (p.stateTime.TimeStart? ==> p.mslen == 0 && p.msi <= i)
    && (p.stateTime.TimePeriodWs? ==> 0 < p.msi && p.msi + p.mslen + 1 <= i && |p.layout| == |ds|)
    && (p.stateTime.TimePeriodWsOffset? || p.stateTime.TimePeriodWsOffsetWsAlpha? ==>
        0 < p.msi && p.msi + p.mslen + 2 <= i)
    && (NoFraction(p.stateTime) ==> p.mslen == 0)
    && (p.stateTime.TimeWs? || p.stateTime.TimeWsAMPMMaybe? ==> |p.layout| == |ds|)
    && (p.fullMonth != "" && !p.stateTime.TimeStart? ==> |p.fullMonth| + 2 <= i)
  }

  ghost predicate TimeAt(p: Parser, ds: string, i: int) {
    i < |ds| && TimeInv(p, ds, i)
  }

  /** The time loop leaves the date state alone. */
  ghost predicate SameDate(p: Parser, q: Parser) {
    q.stateDate == p.stateDate && q.ambiguousMD == p.ambiguousMD && (p.dlen > 0 ==> q.dlen > 0)
  }

  /** The string is unchanged, or has a dot in place of the c at i. */
  predicate DotFor(ds: string, d: string, i: int, c: char) {
    d == ds || (0 <= i < |ds| && ds[i] == c && d == ds[i := '.'])
  }

  ghost predicate TimeFlowInv(f: Flow, p: Parser, ds: string, i: int) {
    match f
    case Next(q, d, j) => j > i && DotFor(ds, d, i, ':') && (d != ds ==> q.stateTime.TimeStart?) && Commas(d) == Commas(ds) && TimeInv(q, d, j) && SameDate(p, q)
    case Break(q, d, j) => d == ds && TimeEndInv(q, d, j) && SameDate(p, q)
    case Restart(s, keep, d) => keep && d == ds && s != ds && DotFor(ds, s, i, ',') && Commas(s) < Commas(ds)
    case Return(_) => false
  }

  // ---------------------------------------------------------------- date loop

  function OnStart(p: Parser, s: string, i: nat): (f: Flow)
    requires DateAt(p, s, i) && p.stateDate.DateStart?
    ensures DateFlowInv(f, p, s, i)
  {
    var r := s[i];
    if IsDigit(r) then Next(p.(stateDate := DateDigit), s, i + 1)
    else if IsLetter(r) then Next(p.(stateDate := DateAlpha), s, i + 1)
    else Fail()
  }

  /** A slash after the first number. */
  function OnDigitSlash1(p: Parser, pref: bool, s: string, i: nat): (f: Flow)
    requires DateAt(p, s, i) && p.stateDate.DateDigit?
    ensures DateFlowInv(f, p, s, i)
  {
    if i == 4 then
      Next(p.(stateDate := DateDigitYearSlash, yearlen := i, moi := i + 1, part1Len := i).SetYear(), s, i + 1)
    else if i + 2 < p.dlen && IsLetter(s[i + 1]) then
      Next(p.(stateDate := DateDigitSlashAlpha, moi := i + 1, daylen := 2, dayi := 0).SetDay(), s, i + 1)
    else
      var q := p.(stateDate := DateDigitSlash, ambiguousMD := true, part1Len := i);
      if pref then
        if q.molen == 0 then Next(q.(molen := i).SetMonth().(dayi := i + 1), s, i + 1)
        else Next(q, s, i + 1)
      else
        if q.daylen == 0 then Next(q.(daylen := i).SetDay().(moi := i + 1), s, i + 1)
        else Next(q, s, i + 1)
  }

  /** A colon after the first number. */
  function OnDigitColon1(p: Parser, pref: bool, s: string, i: nat): (f: Flow)
    requires DateAt(p, s, i) && p.stateDate.DateDigit?
    ensures DateFlowInv(f, p, s, i)
  {
    if i == 4 then
      Next(p.(stateDate := DateDigitColon, yearlen := i, moi := i + 1, part1Len := i).SetYear(), s, i + 1)
    else
      var q := p.(stateDate := DateDigitColon, ambiguousMD := true, part1Len := i);
      if pref && q.molen == 0 then
        Next(q.(molen := i).SetMonth().(dayi := i + 1), s, i + 1)
      else Next(q, s, i + 1)
  }

  /** A dot after the first number. */
  function OnDigitDot1(p: Parser, s: string, i: nat): (f: Flow)
    requires DateAt(p, s, i) && p.stateDate.DateDigit?
    ensures DateFlowInv(f, p, s, i)
  {
    if i == 4 then
      Next(p.(stateDate := DateDigitDot, yearlen := i, moi := i + 1, part1Len := i).SetYear(), s, i + 1)
    else
      Next(p.(stateDate := DateDigitDot, ambiguousMD := true, moi := 0, molen := i, part1Len := i)
           .SetMonth().(dayi := i + 1), s, i + 1)
  }

  function OnDigit(p: Parser, pref: bool, s: string, i: nat): (f: Flow)
    requires DateAt(p, s, i) && p.stateDate.DateDigit?
    ensures DateFlowInv(f, p, s, i)
  {
    var r := s[i];
    hide OnDigitSlash1, OnDigitColon1, OnDigitDot1;
    if r == '-' then
      if i == 4 then
        Next(p.(stateDate := DateYearDash, yeari := 0, yearlen := i, moi := i + 1, part1Len := i)
             .Set(0, "2006"), s, i + 1)
      else Next(p.(stateDate := DateDigitDash, part1Len := i), s, i + 1)
    else if r == '/' then OnDigitSlash1(p, pref, s, i)
    else if r == ':' then OnDigitColon1(p, pref, s, i)
    else if r == '.' then OnDigitDot1(p, s, i)
    else if r == ' ' then
      if i == 6 then Next(p.(stateDate := DateDigitSt, part1Len := i), s, i + 1)
      else Next(p.(stateDate := DateDigitWs, dayi := 0, daylen := i, part1Len := i), s, i + 1)
    else if r == ',' then Fail()
    else Next(p, s, i + 1)
  }

  function OnDigitSt(p: Parser, s: string, i: nat): (f: Flow)
    requires DateAt(p, s, i) && p.stateDate.DateDigitSt?
    ensures DateFlowInv(f, p, s, i)
  {
    Break(p.Set(0, "060102").(stateTime := TimeStart), s, i - 1)
  }

  function OnYearDash(p: Parser, s: string, i: nat): (f: Flow)
    requires DateAt(p, s, i) && p.stateDate.DateYearDash?
    ensures DateFlowInv(f, p, s, i)
  {
    var r := s[i];
    if r == '-' then
      Next(p.(molen := i - p.moi, dayi := i + 1, stateDate := DateYearDashDash).SetMonth(), s, i + 1)
    else if IsLetter(r) then Next(p.(stateDate := DateYearDashAlphaDash), s, i + 1)
    else Next(p, s, i + 1)
  }

  function OnYearDashDash(p: Parser, s: string, i: nat): (f: Flow)
    requires DateAt(p, s, i) && p.stateDate.DateYearDashDash?
    ensures DateFlowInv(f, p, s, i)
  {
    var r := s[i];
    if r == '+' || r == '-' then
      Next(p.(offseti := i, daylen := i - p.dayi, stateDate := DateYearDashDashOffset).SetDay(), s, i + 1)
    else if r == ' ' then
      Break(p.(daylen := i - p.dayi, stateDate := DateYearDashDashWs, stateTime := TimeStart).SetDay(), s, i)
    else if r == 'T' then
      Break(p.(daylen := i - p.dayi, stateDate := DateYearDashDashT, stateTime := TimeStart).SetDay(), s, i)
    else Next(p, s, i + 1)
  }

  function OnYearDashDashOffset(p: Parser, s: string, i: nat): (f: Flow)
    requires DateAt(p, s, i) && p.stateDate.DateYearDashDashOffset?
    ensures DateFlowInv(f, p, s, i)
  {
    var r := s[i];
    if r == ':' then Next(p.Set(p.offseti, "-07:00"), s, i + 1) else Next(p, s, i + 1)
  }

  function OnYearDashAlphaDash(p: Parser, s: string, i: nat): (f: Flow)
    requires DateAt(p, s, i) && p.stateDate.DateYearDashAlphaDash?
    ensures DateFlowInv(f, p, s, i)
  {
    var r := s[i];
    if r == '-' then Next(p.(molen := i - p.moi, dayi := i + 1).Set(p.moi, "Jan"), s, i + 1)
    else Next(p, s, i + 1)
  }

  function OnDigitDash(p: Parser, s: string, i: nat): (f: Flow)
    requires DateAt(p, s, i) && p.stateDate.DateDigitDash?
    ensures DateFlowInv(f, p, s, i)
  {
    var r := s[i];
    if IsLetter(r) then Next(p.(stateDate := DateDigitDashAlpha, moi := i), s, i + 1) else Fail()
  }

  function OnDigitDashAlpha(p: Parser, s: string, i: nat): (f: Flow)
    requires DateAt(p, s, i) && p.stateDate.DateDigitDashAlpha?
    ensures DateFlowInv(f, p, s, i)
  {
    var r := s[i];
    if r == '-' then
      Next(p.(molen := i - p.moi, yeari := i + 1, stateDate := DateDigitDashAlphaDash).Set(p.moi, "Jan"), s, i + 1)
    else Next(p, s, i + 1)
  }

  /** dd-mon-yyyy or dd-mon-yy, once the length of the last part is known. */
  function DashYear(p: Parser, length: int): Parser {
    if length == 4 then
      p.(yearlen := 4, dayi := 0, daylen := p.part1Len).Set(p.yeari, "2006").SetDay()
    else if length == 2 then
      p.(ambiguousMD := true, yearlen := 2, dayi := 0, daylen := p.part1Len).Set(p.yeari, "06").SetDay()
    else p
  }

  function OnDigitDashAlphaDash(p: Parser, s: string, i: nat): (f: Flow)
    requires DateAt(p, s, i) && p.stateDate.DateDigitDashAlphaDash?
    ensures DateFlowInv(f, p, s, i)
  {
    var r := s[i];
    if r == ' ' then Break(DashYear(p.(stateTime := TimeStart), i - (p.moi + p.molen + 1)), s, i)
    else Next(p, s, i + 1)
  }

  function OnDigitYearSlash(p: Parser, s: string, i: nat): (f: Flow)
    requires DateAt(p, s, i) && p.stateDate.DateDigitYearSlash?
    ensures DateFlowInv(f, p, s, i)
  {
    var r := s[i];
    if r == ' ' || r == ':' then
      if p.daylen == 0 then Break(p.(daylen := i - p.dayi, stateTime := TimeStart).SetDay(), s, i)
      else Break(p.(stateTime := TimeStart), s, i)
    else if r == '/' && p.molen == 0 then
      Next(p.(molen := i - p.moi).SetMonth().(dayi := i + 1), s, i + 1)
    else Next(p, s, i + 1)
  }

  function OnDigitSlashAlpha(p: Parser, s: string, i: nat): (f: Flow)
    requires DateAt(p, s, i) && p.stateDate.DateDigitSlashAlpha?
    ensures DateFlowInv(f, p, s, i)
  {
    var r := s[i];
    if r == '/' then
      if p.molen == 0 then Next(p.(yeari := i + 1).Set(p.moi, "Jan"), s, i + 1) else Next(p, s, i + 1)
    else if r == ' ' || r == ':' then
      if p.yearlen == 0 then Break(p.(yearlen := i - p.yeari, stateTime := TimeStart).SetYear(), s, i)
      else Break(p.(stateTime := TimeStart), s, i)
    else Next(p, s, i + 1)
  }

  function OnDigitSlash(p: Parser, pref: bool, s: string, i: nat): (f: Flow)
    requires DateAt(p, s, i) && p.stateDate.DateDigitSlash?
    ensures DateFlowInv(f, p, s, i)
  {
    var r := s[i];
    if r == '/' then
      if pref && p.daylen == 0 then
        Next(p.(daylen := i - p.dayi, yeari := i + 1).SetDay(), s, i + 1)
      else if !pref && p.molen == 0 then
        Next(p.(molen := i - p.moi, yeari := i + 1).SetMonth(), s, i + 1)
      else Next(p, s, i + 1)
    else if r == ' ' then
      if p.yearlen == 0 then Break(p.(yearlen := i - p.yeari, stateTime := TimeStart).SetYear(), s, i)
      else Break(p.(stateTime := TimeStart), s, i)
    else Next(p, s, i + 1)
  }

  function OnDigitColon(p: Parser, pref: bool, s: string, i: nat): (f: Flow)
    requires DateAt(p, s, i) && p.stateDate.DateDigitColon?
    ensures DateFlowInv(f, p, s, i)
  {
    var r := s[i];
    if r == ' ' then
      if p.yearlen == 0 then Break(p.(yearlen := i - p.yeari, stateTime := TimeStart).SetYear(), s, i)
      else if p.daylen == 0 then Break(p.(daylen := i - p.dayi, stateTime := TimeStart).SetDay(), s, i)
      else Break(p.(stateTime := TimeStart), s, i)
    else if r == ':' then
      if p.yearlen > 0 then
        if p.molen == 0 then Next(p.(molen := i - p.moi, dayi := i + 1).SetMonth(), s, i + 1)
        else Next(p, s, i + 1)
      else if pref && p.daylen == 0 then
        Next(p.(daylen := i - p.dayi, yeari := i + 1).SetDay(), s, i + 1)
      else Next(p, s, i + 1)
    else Next(p, s, i + 1)
  }

  function OnDigitWs(p: Parser, s: string, i: nat): (f: Flow)
    requires DateAt(p, s, i) && p.stateDate.DateDigitWs?
    ensures DateFlowInv(f, p, s, i)
  {
    var r := s[i];
    if r == ' ' then
      var q := p.(yeari := i + 1, dayi := 0, daylen := p.part1Len, stateTime := TimeStart).SetDay();
      if i > q.daylen + 4 then Next(q.(stateDate := DateDigitWsMolong), s, i + 1)
      else
        Next(q.(moi := q.daylen + 1, molen := i - (q.daylen + 1), stateDate := DateDigitWsMoYear)
             .Set(q.daylen + 1, "Jan"), s, i + 1)
    else Next(p, s, i + 1)
  }

  function OnDigitWsMoYear(p: Parser, s: string, i: nat): (f: Flow)
    requires DateAt(p, s, i) && p.stateDate.DateDigitWsMoYear?
    ensures DateFlowInv(f, p, s, i)
  {
    var r := s[i];
    if r == ',' then Break(p.(yearlen := i - p.yeari).SetYear(), s, i + 1)
    else if r == ' ' then Break(p.(yearlen := i - p.yeari).SetYear(), s, i)
    else Next(p, s, i + 1)
  }

  function OnDigitDot(p: Parser, s: string, i: nat): (f: Flow)
    requires DateAt(p, s, i) && p.stateDate.DateDigitDot?
    ensures DateFlowInv(f, p, s, i)
  {
    var r := s[i];
    if r == '.' then
      if p.moi == 0 then
        Next(p.(daylen := i - p.dayi, yeari := i + 1, stateDate := DateDigitDotDot).SetDay(), s, i + 1)
      else
        Next(p.(molen := i - p.moi, dayi := i + 1, stateDate := DateDigitDotDot).SetMonth(), s, i + 1)
    else Next(p, s, i + 1)
  }

  /** The space after the first word: a month, a weekday, or something short. */
  function OnAlphaSpace(p: Parser, s: string, i: nat): (f: Flow)
    requires DateAt(p, s, i) && p.stateDate.DateAlpha?
    ensures DateFlowInv(f, p, s, i)
  {
    hide IsMonthFull, IsDay;
    if i > 3 then
      if IsMonthFull(ToLower(s[..i])) then
        Next(p.(fullMonth := ToLower(s[..i]),
                stateDate := if |s[i..]| < 10 then DateAlphaWsMonth else DateAlphaWsMore,
                dayi := i + 1), s, i + 1)
      else Next(p, s, i + 1)
    else if IsDay(ToLower(s[..i])) then Restart(s[i + 1..], false, s)
    else Next(p.(stateDate := DateAlphaWs), s, i + 1)
  }

  function OnAlpha(p: Parser, s: string, i: nat): (f: Flow)
    requires DateAt(p, s, i) && p.stateDate.DateAlpha?
    ensures DateFlowInv(f, p, s, i)
  {
    hide OnAlphaSpace, Write;
    hide Write, Either;
    var r := s[i];
    if r == ' ' then OnAlphaSpace(p, s, i)
    else if r == ',' then
      if i == 3 then Next(p.(stateDate := DateWeekdayAbbrevComma).Set(0, "Mon"), s, i + 1)
      else Next(p.(stateDate := DateWeekdayComma, skip := i + 2), s, i + 2)
    else if r == '.' then
      if i == 3 then Next(p.(stateDate := DateAlphaPeriodWsDigit, molen := i).Set(0, "Jan"), s, i + 1)
      else if i == 4 then Restart(s[..i - 1] + s[i..], true, s[..i - 1] + s[i..])
      else Fail()
    else Next(p, s, i + 1)
  }

  function OnAlphaWs(p: Parser, s: string, i: nat): (f: Flow)
    requires DateAt(p, s, i) && p.stateDate.DateAlphaWs?
    ensures DateFlowInv(f, p, s, i)
  {
    hide Write, Either;
    var r := s[i];
    if IsLetter(r) then Next(p.(stateDate := DateAlphaWsAlpha).Set(0, "Mon").Set(i, "Jan"), s, i + 1)
    else if IsDigit(r) then Next(p.(stateDate := DateAlphaWsDigit, dayi := i).Set(0, "Jan"), s, i + 1)
    else Next(p, s, i + 1)
  }

  function OnAlphaWsDigit(p: Parser, s: string, i: nat): (f: Flow)
    requires DateAt(p, s, i) && p.stateDate.DateAlphaWsDigit?
    ensures DateFlowInv(f, p, s, i)
  {
    hide Write, Either;
    var r := s[i];
    if r == ',' then
      Next(p.(daylen := i - p.dayi, stateDate := DateAlphaWsDigitMore).SetDay(), s, i + 1)
    else if r == ' ' then
      Next(p.(daylen := i - p.dayi, yeari := i + 1, stateDate := DateAlphaWsDigitYearmaybe,
              stateTime := TimeStart).SetDay(), s, i + 1)
    else if IsLetter(r) then Next(p.(stateDate := DateAlphaWsMonthSuffix), s, i)
    else Next(p, s, i + 1)
  }

  function OnAlphaWsDigitYearmaybe(p: Parser, s: string, i: nat): (f: Flow)
    requires DateAt(p, s, i) && p.stateDate.DateAlphaWsDigitYearmaybe?
    ensures DateFlowInv(f, p, s, i)
  {
    var r := s[i];
    if r == ':' then Break(p.(stateDate := DateAlphaWsDigit, yeari := 0), s, i - 3)
    else if r == ' ' then Break(p.(yearlen := i - p.yeari).SetYear(), s, i)
    else Next(p, s, i + 1)
  }

  function OnAlphaWsDigitMore(p: Parser, s: string, i: nat): (f: Flow)
    requires DateAt(p, s, i) && p.stateDate.DateAlphaWsDigitMore?
    ensures DateFlowInv(f, p, s, i)
  {
    var r := s[i];
    if r == ' ' then Next(p.(yeari := i + 1, stateDate := DateAlphaWsDigitMoreWs), s, i + 1)
    else Next(p, s, i + 1)
  }

  function OnAlphaWsDigitMoreWs(p: Parser, s: string, i: nat): (f: Flow)
    requires DateAt(p, s, i) && p.stateDate.DateAlphaWsDigitMoreWs?
    ensures DateFlowInv(f, p, s, i)
  {
    var r := s[i];
    if r == '\'' then Next(p.(yeari := i + 1), s, i + 1)
    else if r == ' ' || r == ',' then
      Break(p.(stateDate := DateAlphaWsDigitMoreWsYear, yearlen := i - p.yeari, stateTime := TimeStart).SetYear(),
            s, i)
    else Next(p, s, i + 1)
  }

  function OnAlphaPeriodWsDigit(p: Parser, s: string, i: nat): (f: Flow)
    requires DateAt(p, s, i) && p.stateDate.DateAlphaPeriodWsDigit?
    ensures DateFlowInv(f, p, s, i)
  {
    var r := s[i];
    if r == ' ' then Next(p, s, i + 1)
    else if IsDigit(r) then Next(p.(stateDate := DateAlphaWsDigit, dayi := i), s, i + 1)
    else Return(Result(Some(p), Some(Unknown)))
  }

  function OnAlphaWsMonth(p: Parser, s: string, i: nat): (f: Flow)
    requires DateAt(p, s, i) && p.stateDate.DateAlphaWsMonth?
    ensures DateFlowInv(f, p, s, i)
  {
    var r := s[i];
    if r == ' ' || r == ',' then
      if p.daylen == 0 then Next(p.(daylen := i - p.dayi).SetDay(), s, i + 1) else Next(p, s, i + 1)
    else if r in "sSrRtTnN" then Next(p.(stateDate := DateAlphaWsMonthSuffix), s, i)
    else if p.daylen > 0 && p.yeari == 0 then Next(p.(yeari := i), s, i + 1)
    else Next(p, s, i + 1)
  }

  function OnAlphaWsMonthMore(p: Parser, s: string, i: nat): (f: Flow)
    requires DateAt(p, s, i) && p.stateDate.DateAlphaWsMonthMore?
    ensures DateFlowInv(f, p, s, i)
  {
    var r := s[i];
    if r == ',' then Break(p.(yearlen := i - p.yeari, stateTime := TimeStart).SetYear(), s, i + 1)
    else if r == ' ' then Break(p.(yearlen := i - p.yeari, stateTime := TimeStart).SetYear(), s, i)
    else Next(p, s, i + 1)
  }

  /** st, nd, rd, th after a day number are cut out and the parse starts over. */
  predicate SuffixAt(s: string, r: char, i: nat) {
    || ((r == 't' || r == 'T') && (NextIs(s, i, 'h') || NextIs(s, i, 'H')))
    || ((r == 'n' || r == 'N') && (NextIs(s, i, 'd') || NextIs(s, i, 'D')))
    || ((r == 's' || r == 'S') && (NextIs(s, i, 't') || NextIs(s, i, 'T')))
    || ((r == 'r' || r == 'R') && (NextIs(s, i, 'd') || NextIs(s, i, 'D')))
  }

  function OnAlphaWsMonthSuffix(p: Parser, s: string, i: nat): (f: Flow)
    requires DateAt(p, s, i) && p.stateDate.DateAlphaWsMonthSuffix?
    ensures DateFlowInv(f, p, s, i)
  {
    var r := s[i];
    if SuffixAt(s, r, i) && |s| > i + 2 then Restart(s[..i] + s[i + 2..], true, s)
    else Next(p, s, i + 1)
  }

  function OnAlphaWsMore(p: Parser, s: string, i: nat): (f: Flow)
    requires DateAt(p, s, i) && p.stateDate.DateAlphaWsMore?
    ensures DateFlowInv(f, p, s, i)
  {
    hide Write, Either;
    var r := s[i];
    if r == ',' then
      if NextIs(s, i, ' ') then
        Next(p.(daylen := i - p.dayi, yeari := i + 2, stateDate := DateAlphaWsMonthMore).SetDay(), s, i + 2)
      else Next(p, s, i + 1)
    else if r == ' ' then
      Next(p.(daylen := i - p.dayi, yeari := i + 1, stateDate := DateAlphaWsMonthMore).SetDay(), s, i + 1)
    else if IsLetter(r) then
      Next(p.(daylen := i - p.dayi, stateDate := DateAlphaWsMonthSuffix).SetDay(), s, i)
    else Next(p, s, i + 1)
  }

  function OnWeekdayComma(p: Parser, s: string, i: nat): (f: Flow)
    requires DateAt(p, s, i) && p.stateDate.DateWeekdayComma?
    ensures DateFlowInv(f, p, s, i)
  {
    var r := s[i];
    var d := if p.dayi == 0 then i else p.dayi;
    if r == ' ' || r == '-' then
      if p.moi == 0 then Next(p.(dayi := d, moi := i + 1, daylen := i - d).SetDay(), s, i + 1)
      else if p.yeari == 0 then
        Next(p.(dayi := d, yeari := i + 1, molen := i - p.moi).Set(p.moi, "Jan"), s, i + 1)
      else Break(p.(dayi := d, stateTime := TimeStart), s, i)
    else Next(p.(dayi := d), s, i + 1)
  }

  function OnWeekdayAbbrevComma(p: Parser, s: string, i: nat): (f: Flow)
    requires DateAt(p, s, i) && p.stateDate.DateWeekdayAbbrevComma?
    ensures DateFlowInv(f, p, s, i)
  {
    var r := s[i];
    if r == ' ' || r == '-' then
      if p.dayi == 0 then Next(p.(dayi := i + 1), s, i + 1)
      else if p.moi == 0 then Next(p.(daylen := i - p.dayi, moi := i + 1).SetDay(), s, i + 1)
      else if p.yeari == 0 then
        Next(p.(molen := i - p.moi, yeari := i + 1).Set(p.moi, "Jan"), s, i + 1)
      else Break(p.(yearlen := i - p.yeari, stateTime := TimeStart).SetYear(), s, i)
    else Next(p, s, i + 1)
  }

  /** Turns of the date loop: the states after a first number. */
  function DigitsStep(p: Parser, pref: bool, s: string, i: nat): (f: Flow)
    requires DateAt(p, s, i)
    ensures DateFlowInv(f, p, s, i)
  {
    match p.stateDate
    case DateDigit => OnDigit(p, pref, s, i)
    case DateDigitSt => OnDigitSt(p, s, i)
    case DateDigitWs => OnDigitWs(p, s, i)
    case DateDigitWsMoYear => OnDigitWsMoYear(p, s, i)
    case DateDigitWsMolong => Next(p, s, i + 1)
    case DateDigitDot => OnDigitDot(p, s, i)
    case DateDigitDotDot => Next(p, s, i + 1)
    case _ => Break(p, s, i)
  }

  /** Turns of the date loop: year first, with dashes. */
  function DashesStep(p: Parser, s: string, i: nat): (f: Flow)
    requires DateAt(p, s, i)
    ensures DateFlowInv(f, p, s, i)
  {
    match p.stateDate
    case DateYearDash => OnYearDash(p, s, i)
    case DateYearDashDash => OnYearDashDash(p, s, i)
    case DateYearDashDashT => Next(p, s, i + 1)
    case DateYearDashDashOffset => OnYearDashDashOffset(p, s, i)
    case DateYearDashAlphaDash => OnYearDashAlphaDash(p, s, i)
    case _ => Break(p, s, i)
  }

  /** Turns of the date loop: day, month name and year with dashes. */
  function DayDashesStep(p: Parser, s: string, i: nat): (f: Flow)
    requires DateAt(p, s, i)
    ensures DateFlowInv(f, p, s, i)
  {
    match p.stateDate
    case DateDigitDash => OnDigitDash(p, s, i)
    case DateDigitDashAlpha => OnDigitDashAlpha(p, s, i)
    case DateDigitDashAlphaDash => OnDigitDashAlphaDash(p, s, i)
    case _ => Break(p, s, i)
  }

  /** Turns of the date loop: dates with slashes or colons. */
  function SlashesStep(p: Parser, pref: bool, s: string, i: nat): (f: Flow)
    requires DateAt(p, s, i)
    ensures DateFlowInv(f, p, s, i)
  {
    match p.stateDate
    case DateDigitYearSlash => OnDigitYearSlash(p, s, i)
    case DateDigitSlashAlpha => OnDigitSlashAlpha(p, s, i)
    case DateDigitSlash => OnDigitSlash(p, pref, s, i)
    case DateDigitColon => OnDigitColon(p, pref, s, i)
    case _ => Break(p, s, i)
  }

  /** Turns of the date loop: dates that start with a word. */
  function WordsStep(p: Parser, s: string, i: nat): (f: Flow)
    requires DateAt(p, s, i)
    ensures DateFlowInv(f, p, s, i)
  {
    match p.stateDate
    case DateAlpha => OnAlpha(p, s, i)
    case DateAlphaWs => OnAlphaWs(p, s, i)
    case DateAlphaWsDigit => OnAlphaWsDigit(p, s, i)
    case DateAlphaWsDigitYearmaybe => OnAlphaWsDigitYearmaybe(p, s, i)
    case DateAlphaWsDigitMore => OnAlphaWsDigitMore(p, s, i)
    case DateAlphaWsDigitMoreWs => OnAlphaWsDigitMoreWs(p, s, i)
    case DateAlphaPeriodWsDigit => OnAlphaPeriodWsDigit(p, s, i)
    case _ => Break(p, s, i)
  }

  /** Turns of the date loop: a full month name, or a day suffix. */
  function MonthsStep(p: Parser, s: string, i: nat): (f: Flow)
    requires DateAt(p, s, i)
    ensures DateFlowInv(f, p, s, i)
  {
    match p.stateDate
    case DateAlphaWsMonth => OnAlphaWsMonth(p, s, i)
    case DateAlphaWsMonthMore => OnAlphaWsMonthMore(p, s, i)
    case DateAlphaWsMonthSuffix => OnAlphaWsMonthSuffix(p, s, i)
    case DateAlphaWsMore => OnAlphaWsMore(p, s, i)
    case _ => Break(p, s, i)
  }

  /** Turns of the date loop: a weekday and a comma. */
  function WeekdaysStep(p: Parser, s: string, i: nat): (f: Flow)
    requires DateAt(p, s, i)
    ensures DateFlowInv(f, p, s, i)
  {
    match p.stateDate
    case DateWeekdayComma => OnWeekdayComma(p, s, i)
    case DateWeekdayAbbrevComma => OnWeekdayAbbrevComma(p, s, i)
    case _ => Break(p, s, i)
  }

  /** One turn of the date loop. */
  function DateStep(p: Parser, pref: bool, s: string, i: nat): (f: Flow)
    requires DateAt(p, s, i)
    ensures DateFlowInv(f, p, s, i)
  {
    match p.stateDate
    case DateStart => OnStart(p, s, i)
    case DateDigit | DateDigitSt | DateDigitWs | DateDigitWsMoYear | DateDigitWsMolong
       | DateDigitDot | DateDigitDotDot =>
      DigitsStep(p, pref, s, i)
    case DateYearDash | DateYearDashDash | DateYearDashDashT | DateYearDashDashOffset
       | DateYearDashAlphaDash => DashesStep(p, s, i)
    case DateDigitDash | DateDigitDashAlpha | DateDigitDashAlphaDash => DayDashesStep(p, s, i)
    case DateDigitYearSlash | DateDigitSlashAlpha | DateDigitSlash | DateDigitColon =>
      SlashesStep(p, pref, s, i)
    case DateAlpha | DateAlphaWs | DateAlphaWsDigit | DateAlphaWsDigitYearmaybe
       | DateAlphaWsDigitMore | DateAlphaWsDigitMoreWs | DateAlphaPeriodWsDigit =>
      WordsStep(p, s, i)
    case DateAlphaWsMonth | DateAlphaWsMonthMore | DateAlphaWsMonthSuffix | DateAlphaWsMore =>
      MonthsStep(p, s, i)
    case DateWeekdayComma | DateWeekdayAbbrevComma =>
      WeekdaysStep(p, s, i)
    case DateYearDashDashWs | DateAlphaWsDigitMoreWsYear | DateAlphaWsAlpha => Break(p, s, i)
  }

  // ---------------------------------------------------------------- time loop

  function OnTimeSign(p: Parser, ds: string, i: nat): (f: Flow)
    requires TimeAt(p, ds, i) && p.stateTime.TimeStart?
    ensures TimeFlowInv(f, p, ds, i)
  {
    var q := p.(stateTime := TimeOffset, offseti := i);
    if q.seci == 0 then Next(q.(minlen := i - q.mini), ds, i + 1)
    else
      Next(q.(seclen := if q.seclen == 0 then i - q.seci else q.seclen,
              mslen := if q.msi > 0 && q.mslen == 0 then i - q.msi else q.mslen), ds, i + 1)
  }

  function OnTimeZulu(p: Parser, ds: string, i: nat): (f: Flow)
    requires TimeAt(p, ds, i) && p.stateTime.TimeStart?
    ensures TimeFlowInv(f, p, ds, i)
  {
    var q := p.(stateTime := TimeZ, zulu := true);
    if q.seci == 0 then Next(q.(minlen := i - q.mini), ds, i + 1)
    else Next(q.(seclen := i - q.seci), ds, i + 1)
  }

  /** am, AM, pm or PM.  AM is laid out as PM. */
  function HalfMark(s: string, r: char, i: nat): string {
    if r == 'a' && NextIs(s, i, 'm') then "am"
    else if r == 'A' && NextIs(s, i, 'M') then "PM"
    else if r == 'p' && NextIs(s, i, 'm') then "pm"
    else if r == 'P' && NextIs(s, i, 'M') then "PM" else ""
  }

  function OnTimeHalf(p: Parser, ds: string, i: nat): (f: Flow)
    requires TimeAt(p, ds, i) && p.stateTime.TimeStart?
    ensures TimeFlowInv(f, p, ds, i)
  {
    var half := HalfMark(ds, ds[i], i);
    if half == "" then Next(p, ds, i + 1) else Next(p.CoalesceTime(i).Set(i, half), ds, i + 1)
  }

  /** a or A: the word at, which resets the hour, or half of a day mark. */
  function OnTimeA(p: Parser, ds: string, i: nat): (f: Flow)
    requires TimeAt(p, ds, i) && p.stateTime.TimeStart?
    ensures TimeFlowInv(f, p, ds, i)
  {
    if NextIs(ds, i, 't') || NextIs(ds, i, 'T') then
      if NextIs(ds, i + 1, ' ') then Next(p.(houri := 0), ds, i + 3) else Next(p, ds, i + 2)
    else OnTimeHalf(p, ds, i)
  }

  function OnTimeSpace(p: Parser, ds: string, i: nat): (f: Flow)
    requires TimeAt(p, ds, i) && p.stateTime.TimeStart?
    ensures TimeFlowInv(f, p, ds, i)
  {
    Next(p.CoalesceTime(i).(stateTime := TimeWs), ds, i + 1)
  }

  function OnTimeColon(p: Parser, ds: string, i: nat): (f: Flow)
    requires TimeAt(p, ds, i) && p.stateTime.TimeStart? && ds[i] == ':'
    ensures TimeFlowInv(f, p, ds, i)
  {
    if p.mini == 0 then Next(p.(mini := i + 1, hourlen := i - p.houri), ds, i + 1)
    else if p.seci == 0 then Next(p.(seci := i + 1, minlen := i - p.mini), ds, i + 1)
    else if p.seci > 0 then
      CommaReplaced(ds, i, '.');
      hide Write, Commas;
      Next(p.(seclen := i - p.seci, msi := i + 1).Set(p.seci, "05").Set(i, "."),
           ds[i := '.'], i + 1)
    else Next(p, ds, i + 1)
  }

  function OnTimeChar(p: Parser, ds: string, i: nat): (f: Flow)
    requires TimeAt(p, ds, i) && p.stateTime.TimeStart?
    ensures TimeFlowInv(f, p, ds, i)
  {
    var r := ds[i];
    if r == ',' then CommaReplaced(ds, i, '.'); Restart(ds[i := '.'], true, ds)
    else if r == '-' || r == '+' then OnTimeSign(p, ds, i)
    else if r == '.' then
      Next(p.(stateTime := TimePeriod, seclen := i - p.seci, msi := i + 1), ds, i + 1)
    else if r == 'Z' then OnTimeZulu(p, ds, i)
    else if r == 'a' || r == 'A' then OnTimeA(p, ds, i)
    else if r == 'p' || r == 'P' then OnTimeHalf(p, ds, i)
    else if r == ' ' then OnTimeSpace(p, ds, i)
    else if r == ':' then OnTimeColon(p, ds, i)
    else Next(p, ds, i + 1)
  }

  /** The first byte seen is where the hour starts. */
  function OnTimeStart(p: Parser, ds: string, i: nat): (f: Flow)
    requires TimeAt(p, ds, i) && p.stateTime.TimeStart?
    ensures TimeFlowInv(f, p, ds, i)
  {
    hide OnTimeChar;
    if p.houri == 0 then OnTimeChar(p.(houri := i), ds, i) else OnTimeChar(p, ds, i)
  }

  /** Writes over a zone abbreviation of three or four letters. */
  function ZoneName(p: Parser, i: int): Parser {
    p.(tzlen := i - p.tzi, layout := Either(p.layout, p.tzi, i - p.tzi, 4, " MST", 3, "MST"))
  }

  function OnTimeWs(p: Parser, ds: string, i: nat): (f: Flow)
    requires TimeAt(p, ds, i) && p.stateTime.TimeWs?
    ensures TimeFlowInv(f, p, ds, i)
  {
    var r := ds[i];
    if r == 'A' || r == 'P' then Next(p.(tzi := i, stateTime := TimeWsAMPMMaybe), ds, i + 1)
    else if r == '+' || r == '-' then Next(p.(offseti := i, stateTime := TimeWsOffset), ds, i + 1)
    else if IsLetter(r) then Next(p.(tzi := i, stateTime := TimeWsAlpha), ds, i + 1)
    else if IsDigit(r) then Next(p.(stateTime := TimeWsYear, yeari := i), ds, i + 1)
    else Next(p, ds, i + 1)
  }

  function OnTimeWsAlpha(p: Parser, ds: string, i: nat): (f: Flow)
    requires TimeAt(p, ds, i) && p.stateTime.TimeWsAlpha?
    ensures TimeFlowInv(f, p, ds, i)
  {
    var r := ds[i];
    if r == '+' || r == '-' then
      Next(ZoneName(p.(stateTime := TimeWsAlphaZoneOffset, offseti := i), i), ds, i + 1)
    else if r == ' ' then
      Next(ZoneName(p.(stateTime := TimeWsAlphaWs, yeari := i + 1), i), ds, i + 1)
    else Next(p, ds, i + 1)
  }

  function OnTimeWsAlphaZoneOffset(p: Parser, ds: string, i: nat): (f: Flow)
    requires TimeAt(p, ds, i) && p.stateTime.TimeWsAlphaZoneOffset?
    ensures TimeFlowInv(f, p, ds, i)
  {
    var r := ds[i];
    if r == ' ' then
      Next(p.(yeari := if p.yeari == 0 then i + 1 else p.yeari, stateTime := TimeWsAlphaZoneOffsetWs)
           .Set(p.offseti, "-0700"), ds, i + 1)
    else Next(p, ds, i + 1)
  }

  function OnTimeWsAlphaZoneOffsetWs(p: Parser, ds: string, i: nat): (f: Flow)
    requires TimeAt(p, ds, i) && p.stateTime.TimeWsAlphaZoneOffsetWs?
    ensures TimeFlowInv(f, p, ds, i)
  {
    var r := ds[i];
    if IsDigit(r) then Next(p.(stateTime := TimeWsAlphaZoneOffsetWsYear), ds, i + 1)
    else Next(p.(extra := i - 1, stateTime := TimeWsAlphaZoneOffsetWsExtra), ds, i + 1)
  }

  /** The fourth digit of a trailing year fixes its place in the layout. */
  function TrailingYear(p: Parser, i: int): Parser {
    var n := i - p.yeari + 1;
    p.(yearlen := n, layout := if n == 4 then Write(p.layout, p.yeari, "2006") else p.layout)
  }

  function OnTimeWsAlphaZoneOffsetWsYear(p: Parser, ds: string, i: nat): (f: Flow)
    requires TimeAt(p, ds, i) && p.stateTime.TimeWsAlphaZoneOffsetWsYear?
    ensures TimeFlowInv(f, p, ds, i)
  {
    var r := ds[i];
    if IsDigit(r) then Next(TrailingYear(p, i), ds, i + 1) else Next(p, ds, i + 1)
  }

  function OnTimeWsAMPMMaybe(p: Parser, ds: string, i: nat): (f: Flow)
    requires TimeAt(p, ds, i) && p.stateTime.TimeWsAMPMMaybe?
    ensures TimeFlowInv(f, p, ds, i)
  {
    var r := ds[i];
    if r == 'M' then
      var q := p.(stateTime := TimeWsAMPM).Set(i - 1, "PM");
      Next(q.(layout := Either(q.layout, q.houri, q.hourlen, 2, "03", 1, "3")), ds, i + 1)
    else Next(p.(stateTime := TimeWsAlpha), ds, i + 1)
  }

  function OnTimeWsOffset(p: Parser, ds: string, i: nat): (f: Flow)
    requires TimeAt(p, ds, i) && p.stateTime.TimeWsOffset?
    ensures TimeFlowInv(f, p, ds, i)
  {
    var r := ds[i];
    hide Write;
    if r == ':' then Next(p.(stateTime := TimeWsOffsetColon), ds, i + 1)
    else if r == ' ' then
      Next(p.(yeari := i + 1, stateTime := TimeWsOffsetWs).Set(p.offseti, "-0700"), ds, i + 1)
    else Next(p, ds, i + 1)
  }

  /** m=, the monotonic reading Go prints after a time: it is cut off. */
  function OnTimeMonotonic(p: Parser, ds: string, i: nat): (f: Flow)
    requires TimeAt(p, ds, i) && (p.stateTime.TimeWsOffsetWs? || p.stateTime.TimePeriodWsOffsetWsAlpha?)
    ensures TimeFlowInv(f, p, ds, i)
  {
    if ds[i - 1] == 'm' then Next(p.(extra := i - 2).TrimExtra(), ds, i + 1) else Next(p, ds, i + 1)
  }

  /** A second zone, as in 00:00:00 +0300 +03: it is cut off. */
  function OnTimeExtraZone(p: Parser, ds: string, i: nat): (f: Flow)
    requires TimeAt(p, ds, i) && (p.stateTime.TimeWsOffset? || p.stateTime.TimePeriodWsOffset?)
    ensures TimeFlowInv(f, p, ds, i)
  {
    Next(p.(extra := i - 1).TrimExtra(), ds, i + 1)
  }

  function OnTimeWsOffsetWs(p: Parser, ds: string, i: nat): (f: Flow)
    requires TimeAt(p, ds, i) && p.stateTime.TimeWsOffsetWs?
    ensures TimeFlowInv(f, p, ds, i)
  {
    var r := ds[i];
    hide OnTimeMonotonic, OnTimeExtraZone;
    if r == '=' then OnTimeMonotonic(p, ds, i)
    else if r == '+' || r == '-' || r == '(' then
      OnTimeExtraZone(p.(stateTime := TimeWsOffset), ds, i)
    else if IsDigit(r) then Next(TrailingYear(p, i), ds, i + 1)
    else if IsLetter(r) && p.tzi == 0 then Next(p.(tzi := i), ds, i + 1)
    else Next(p, ds, i + 1)
  }

  function OnTimeWsOffsetColon(p: Parser, ds: string, i: nat): (f: Flow)
    requires TimeAt(p, ds, i) && p.stateTime.TimeWsOffsetColon?
    ensures TimeFlowInv(f, p, ds, i)
  {
    var r := ds[i];
    if IsLetter(r) then Break(p.(stateTime := TimeWsOffsetColonAlpha), ds, i) else Next(p, ds, i + 1)
  }

  function OnTimeOffset(p: Parser, ds: string, i: nat): (f: Flow)
    requires TimeAt(p, ds, i) && p.stateTime.TimeOffset?
    ensures TimeFlowInv(f, p, ds, i)
  {
    var r := ds[i];
    if r == ':' then Next(p.(stateTime := TimeOffsetColon), ds, i + 1) else Next(p, ds, i + 1)
  }

  function OnTimeZ(p: Parser, ds: string, i: nat): (f: Flow)
    requires TimeAt(p, ds, i) && p.stateTime.TimeZ?
    ensures TimeFlowInv(f, p, ds, i)
  {
    var r := ds[i];
    if IsDigit(r) then Next(p.(stateTime := TimeZDigit), ds, i + 1) else Next(p, ds, i + 1)
  }

  function OnTimePeriod(p: Parser, ds: string, i: nat): (f: Flow)
    requires TimeAt(p, ds, i) && p.stateTime.TimePeriod?
    ensures TimeFlowInv(f, p, ds, i)
  {
    var r := ds[i];
    if r == ' ' then Next(p.(mslen := i - p.msi, stateTime := TimePeriodWs), ds, i + 1)
    else if r == '+' || r == '-' then
      Next(p.(mslen := i - p.msi, offseti := i, stateTime := TimePeriodOffset), ds, i + 1)
    else if IsLetter(r) then Next(p.(mslen := i - p.msi, stateTime := TimePeriodWsAlpha), ds, i + 1)
    else Next(p, ds, i + 1)
  }

  function OnTimePeriodOffset(p: Parser, ds: string, i: nat): (f: Flow)
    requires TimeAt(p, ds, i) && p.stateTime.TimePeriodOffset?
    ensures TimeFlowInv(f, p, ds, i)
  {
    var r := ds[i];
    if r == ':' then Next(p.(stateTime := TimePeriodOffsetColon), ds, i + 1) else Next(p, ds, i + 1)
  }

  function OnTimePeriodOffsetColon(p: Parser, ds: string, i: nat): (f: Flow)
    requires TimeAt(p, ds, i) && p.stateTime.TimePeriodOffsetColon?
    ensures TimeFlowInv(f, p, ds, i)
  {
    var r := ds[i];
    if r == ' ' then
      Next(p.(stateTime := TimePeriodOffsetColonWs, tzi := i + 1).Set(p.offseti, "-07:00"), ds, i + 1)
    else Next(p, ds, i + 1)
  }

  function OnTimePeriodWs(p: Parser, ds: string, i: nat): (f: Flow)
    requires TimeAt(p, ds, i) && p.stateTime.TimePeriodWs?
    ensures TimeFlowInv(f, p, ds, i)
  {
    var r := ds[i];
    var o := if p.offseti == 0 then i else p.offseti;
    if r == '+' || r == '-' then
      Next(p.(offseti := o, mslen := i - p.msi - 1, stateTime := TimePeriodWsOffset), ds, i + 1)
    else if IsLetter(r) then Break(p.(offseti := o, stateTime := TimePeriodWsOffsetWsAlpha), ds, i)
    else Next(p.(offseti := o), ds, i + 1)
  }

  function OnTimePeriodWsOffset(p: Parser, ds: string, i: nat): (f: Flow)
    requires TimeAt(p, ds, i) && p.stateTime.TimePeriodWsOffset?
    ensures TimeFlowInv(f, p, ds, i)
  {
    var r := ds[i];
    hide OnTimeExtraZone;
    if r == ' ' then Next(p.Set(p.offseti, "-0700"), ds, i + 1)
    else if r == '+' || r == '-' then OnTimeExtraZone(p, ds, i)
    else
      Next(p.(stateTime := if r == ':' then TimePeriodWsOffsetColon
                           else if IsLetter(r) then TimePeriodWsOffsetWsAlpha else p.stateTime), ds, i + 1)
  }

  function OnTimePeriodWsOffsetWsAlpha(p: Parser, ds: string, i: nat): (f: Flow)
    requires TimeAt(p, ds, i) && p.stateTime.TimePeriodWsOffsetWsAlpha?
    ensures TimeFlowInv(f, p, ds, i)
  {
    var r := ds[i];
    hide OnTimeMonotonic;
    if r == '=' then OnTimeMonotonic(p, ds, i) else Next(p, ds, i + 1)
  }

  function OnTimePeriodWsOffsetColon(p: Parser, ds: string, i: nat): (f: Flow)
    requires TimeAt(p, ds, i) && p.stateTime.TimePeriodWsOffsetColon?
    ensures TimeFlowInv(f, p, ds, i)
  {
    hide Write, Commas;
    var r := ds[i];
    if r == ' ' then Next(p.Set(p.offseti, "-07:00"), ds, i + 1)
    else if IsLetter(r) then Next(p.(tzi := i, stateTime := TimePeriodWsOffsetColonAlpha), ds, i + 1)
    else Next(p, ds, i + 1)
  }

  /** Turns of the time loop: a space and what may be a zone name. */
  function AbbreviationStep(p: Parser, ds: string, i: nat): (f: Flow)
    requires TimeAt(p, ds, i) && !p.stateTime.TimeStart?
    ensures TimeFlowInv(f, p, ds, i)
  {
    match p.stateTime
    case TimeWs => OnTimeWs(p, ds, i)
    case TimeWsAlpha => OnTimeWsAlpha(p, ds, i)
    case TimeWsAMPMMaybe => OnTimeWsAMPMMaybe(p, ds, i)
    case _ => Next(p, ds, i + 1)
  }

  /** Turns of the time loop: after a zone name, an offset or Z. */
  function NamedStep(p: Parser, ds: string, i: nat): (f: Flow)
    requires TimeAt(p, ds, i) && !p.stateTime.TimeStart?
    ensures TimeFlowInv(f, p, ds, i)
  {
    match p.stateTime
    case TimeWsAlphaZoneOffset => OnTimeWsAlphaZoneOffset(p, ds, i)
    case TimeWsAlphaZoneOffsetWs => OnTimeWsAlphaZoneOffsetWs(p, ds, i)
    case TimeWsAlphaZoneOffsetWsYear => OnTimeWsAlphaZoneOffsetWsYear(p, ds, i)
    case TimeOffset => OnTimeOffset(p, ds, i)
    case TimeZ => OnTimeZ(p, ds, i)
    case _ => Next(p, ds, i + 1)
  }

  /** Turns of the time loop: after a space and an offset. */
  function OffsetStep(p: Parser, ds: string, i: nat): (f: Flow)
    requires TimeAt(p, ds, i) && !p.stateTime.TimeStart?
    ensures TimeFlowInv(f, p, ds, i)
  {
    match p.stateTime
    case TimeWsOffset => OnTimeWsOffset(p, ds, i)
    case TimeWsOffsetWs => OnTimeWsOffsetWs(p, ds, i)
    case TimeWsOffsetColon => OnTimeWsOffsetColon(p, ds, i)
    case _ => Next(p, ds, i + 1)
  }

  /** Turns of the time loop: a fraction and what follows. */
  function PeriodStep(p: Parser, ds: string, i: nat): (f: Flow)
    requires TimeAt(p, ds, i) && !p.stateTime.TimeStart?
    ensures TimeFlowInv(f, p, ds, i)
  {
    match p.stateTime
    case TimePeriod => OnTimePeriod(p, ds, i)
    case TimePeriodOffset => OnTimePeriodOffset(p, ds, i)
    case TimePeriodOffsetColon => OnTimePeriodOffsetColon(p, ds, i)
    case TimePeriodWs => OnTimePeriodWs(p, ds, i)
    case _ => Next(p, ds, i + 1)
  }

  /** Turns of the time loop: after a fraction, a space and an offset. */
  function PeriodOffsetStep(p: Parser, ds: string, i: nat): (f: Flow)
    requires TimeAt(p, ds, i) && !p.stateTime.TimeStart?
    ensures TimeFlowInv(f, p, ds, i)
  {
    match p.stateTime
    case TimePeriodWsOffset => OnTimePeriodWsOffset(p, ds, i)
    case TimePeriodWsOffsetWsAlpha => OnTimePeriodWsOffsetWsAlpha(p, ds, i)
    case TimePeriodWsOffsetColon => OnTimePeriodWsOffsetColon(p, ds, i)
    case _ => Next(p, ds, i + 1)
  }

  /** One turn of the time loop. */
  function TimeStep(p: Parser, ds: string, i: nat): (f: Flow)
    requires TimeAt(p, ds, i)
    ensures TimeFlowInv(f, p, ds, i)
  {
    match p.stateTime
    case TimeStart => OnTimeStart(p, ds, i)
    case TimeWs | TimeWsAlpha | TimeWsAMPMMaybe =>
      AbbreviationStep(p, ds, i)
    case TimeWsAlphaZoneOffset | TimeWsAlphaZoneOffsetWs | TimeWsAlphaZoneOffsetWsYear
       | TimeOffset | TimeZ =>
      NamedStep(p, ds, i)
    case TimeWsOffset | TimeWsOffsetWs | TimeWsOffsetColon =>
      OffsetStep(p, ds, i)
    case TimePeriod | TimePeriodOffset | TimePeriodOffsetColon | TimePeriodWs =>
      PeriodStep(p, ds, i)
    case TimePeriodWsOffset | TimePeriodWsOffsetWsAlpha | TimePeriodWsOffsetColon =>
      PeriodOffsetStep(p, ds, i)
    case _ => Next(p, ds, i + 1)
  }

  // ---------------------------------------------------------------- the runs

  /** The date loop from index i: it ends in Break, Restart or Return. */
  function RunDate(p: Parser, pref: bool, s: string, i: nat): (f: Flow)
    requires DateInv(p, s, i)
    ensures !f.Next?
    ensures f.Break? ==> f.ds == s && DateEndInv(f.p, s, f.i) && KindKept(p, f.p)
    ensures f.Restart? ==> |f.s| < |s| && (f.ds == s || (f.keepOptions && f.ds == f.s)) && Kind(p.stateDate) != 1
    ensures f.Return? ==> f.res.err.Some?
    ensures f.Return? && f.res.p.Some? ==>
              Ready(f.res.p.value) && f.res.p.value.t.None? && 0 < f.res.p.value.dlen <= |s| && KindKept(p, f.res.p.value)
    decreases if p.stateDate.DateAlphaWsMonthSuffix? then 0 else 1, if i < |s| then |s| - i else 0
  {
    if i >= |s| then Break(p, s, i)
    else
      hide DateStep, Kind;
      var f := DateStep(p, pref, s, i);
      if f.Next? then RunDate(f.p, pref, s, f.i) else f
  }

  function SkipSpaces(s: string, i: nat): (j: nat)
    ensures i <= j && (i < j ==> j <= |s|)
    ensures (forall k :: i <= k < j ==> s[k] == ' ') && (j < |s| ==> s[j] != ' ')
    decreases |s| - i
  {
    if i < |s| && s[i] == ' ' then SkipSpaces(s, i + 1) else i
  }

  /** The time loop from index i: it ends in Break or Restart. */
  function RunTime(p: Parser, ds: string, i: nat): (f: Flow)
    requires TimeInv(p, ds, i)
    ensures f.Break? || f.Restart?
    ensures f.Break? ==> |f.ds| == |ds| && TimeEndInv(f.p, f.ds, f.i) && SameDate(p, f.p)
    ensures f.Restart? ==> |f.s| == |ds| && Commas(f.s) < Commas(ds)
    decreases |ds| - i
  {
    if i >= |ds| then Break(p, ds, i)
    else
      hide TimeStep;
      var f := TimeStep(p, ds, i);
      if f.Next? then RunTime(f.p, f.ds, f.i) else f
  }

  /** What the last switch needs. */
  ghost predicate Finishable(p: Parser) {
    && |p.layout| == p.dlen && Roles(p)
    && (p.fullMonth != "" ==> |p.fullMonth| <= |p.layout|)
  }

  predicate FractionFits(p: Parser) {
    p.msi > 0 && p.mslen > 0 ==> p.msi + p.mslen <= |p.layout|
  }

  /** The zone that a + or - right after the time began must be 2 or 4 digits, with
      an optional colon. */
  function OffsetFinish(p: Parser, ds: string, i: int): (f: Flow)
    requires TimeEndInv(p, ds, i) && p.stateTime.TimeOffset?
    ensures FinishInv(f, p, ds)
  {
    hide Write;
    var n := p.dlen - p.offseti;
    if n == 0 || n == 1 || n == 2 || n == 4 then
      Return(Result(Some(p), Some(ZoneOffset)))
    else if n == 3 then Break(p.Set(p.offseti, "-07"), ds, i)
    else if n == 5 then Break(p.Set(p.offseti, "-0700"), ds, i)
    else Break(p, ds, i)
  }

  /** A zone abbreviation that runs to the end of the input. */
  function AbbreviationFinish(p: Parser, ds: string, i: int): (f: Flow)
    requires TimeEndInv(p, ds, i) && p.stateTime.TimeWsAlpha?
    ensures FinishInv(f, p, ds)
  {
    hide Write;
    if p.dlen - p.tzi == 3 then Break(p.Set(p.tzi, "MST"), ds, i)
    else if p.dlen - p.tzi == 4 then
      Break(p.(extra := p.dlen - 1).Set(p.tzi, "MST").TrimExtra(), ds, i)
    else Break(p, ds, i)
  }

  ghost predicate FinishInv(f: Flow, p: Parser, ds: string) {
    match f
    case Break(q, d, _) => d == ds && Finishable(q) && q.t.None? && q.dlen <= |ds| && FractionFits(q) && SameDate(p, q)
    case Return(res) => res.p == Some(p) && res.err.Some? && Finishable(p)
    case _ => false
  }

  predicate EndsInOffset(t: TimeState) {
    t.TimeWsAlphaZoneOffset? || t.TimeWsOffset? || t.TimePeriodOffset? || t.TimePeriodWsOffset?
    || t.TimeWsOffsetColon? || t.TimeOffsetColon? || t.TimePeriodOffsetColon?
  }

  /** An offset that runs to the end of the input. */
  function OffsetEndFinish(p: Parser, ds: string, i: int): (f: Flow)
    requires TimeEndInv(p, ds, i) && EndsInOffset(p.stateTime)
    ensures FinishInv(f, p, ds)
  {
    hide Write;
    var zone := match p.stateTime
                case TimeWsAlphaZoneOffset => if i - p.offseti < 4 then "-07" else "-0700"
                case TimeWsOffsetColon | TimeOffsetColon | TimePeriodOffsetColon => "-07:00"
                case _ => "-0700";
    Break(p.Set(p.offseti, zone), ds, i)
  }

  /** A zone name, a fraction or a comment that runs to the end of the input. */
  function TailFinish(p: Parser, ds: string, i: int): (f: Flow)
    requires TimeEndInv(p, ds, i)
    ensures FinishInv(f, p, ds)
  {
    hide Write, Either;
    match p.stateTime
    case TimeWsAlphaZoneOffsetWsExtra => Break(p.TrimExtra(), ds, i)
    case TimePeriod => Break(p.(mslen := i - p.msi), ds, i)
    case TimeWsOffsetWs =>
      var l := if p.tzi > 0 then Either(p.layout, p.tzi, p.dlen - p.tzi, 3, "MST", 4, "MST ") else p.layout;
      Break(p.(layout := l), ds, i)
    case TimePeriodWsOffsetColonAlpha =>
      Break(p.(tzlen := i - p.tzi, layout := Either(p.layout, p.tzi, i - p.tzi, 3, "MST", 4, "MST ")), ds, i)
    case _ => Break(p, ds, i)
  }

  /** The switch after the time loop, before coalesceTime. */
  function TimeFinish(p: Parser, ds: string, i: int): (f: Flow)
    requires TimeEndInv(p, ds, i)
    ensures FinishInv(f, p, ds)
  {
    hide OffsetFinish, AbbreviationFinish, OffsetEndFinish, TailFinish;
    match p.stateTime
    case TimeWsAlpha => AbbreviationFinish(p, ds, i)
    case TimeOffset => OffsetFinish(p, ds, i)
    case TimeWsAlphaWs | TimeWsYear => Break(p.(yearlen := i - p.yeari).SetYear(), ds, i)
    case _ => if EndsInOffset(p.stateTime) then OffsetEndFinish(p, ds, i) else TailFinish(p, ds, i)
  }

  // ---------------------------------------------------------------- all digits

  predicate AllDigits(s: string) { forall k :: 0 <= k < |s| ==> IsDigit(s[k]) }

  function Decimal(s: string): nat
    requires AllDigits(s)
  {
    if s == "" then 0 else Decimal(s[..|s| - 1]) * 10 + ((s[|s| - 1] - '0') as nat)
  }

  /** Unix nanoseconds of an all-digit string, by its length; None when ParseInt fails
      or the length is none of 19, 16, 13 and 10. */
  function UnixStamp(s: string): Option<int> {
    if !AllDigits(s) || Decimal(s) >= TWO63 then None
    else if |s| == 19 then Some(Decimal(s))
    else if |s| == 16 then Some(Wrap64(Decimal(s) * 1000))
    else if |s| == 13 then Some(Wrap64(Decimal(s) * 1_000_000))
    else if |s| == 10 then Some(Decimal(s) * 1_000_000_000)
    else None
  }

  ghost predicate SameState(p: Parser, q: Parser) { q.stateDate == p.stateDate }

  function DigitFinish(p: Parser, ds: string): (res: Result)
    requires Finishable(p) && p.stateDate.DateDigit?
    ensures res.p.Some? ==> Ready(res.p.value) && res.p.value.dlen == p.dlen && SameState(p, res.p.value)
  {
    if |ds| == 14 then Result(Some(p.(layout := Lit("20060102150405"))), None)
    else if |ds| == 8 then Result(Some(p.(layout := Lit("20060102"))), None)
    else if |ds| == 4 then Result(Some(p.(layout := Lit("2006"))), None)
    else if |ds| < 4 then Result(None, Some(TooShort))
    else
      match UnixStamp(ds)
      case Some(t) => Result(Some(p.(t := Some(t))), None)
      case None => Result(None, Some(Unknown))
  }

  predicate Accepting(d: DateState) {
    match d
    case DateStart | DateDigit | DateDigitDash | DateDigitDashAlpha | DateDigitWs
       | DateAlpha | DateAlphaWs | DateAlphaWsDigitMore | DateAlphaWsMonthSuffix
       | DateAlphaWsMore | DateAlphaPeriodWsDigit => false
    case _ => true
  }

  /** The last switch, on the date state. */
  function Finish(p: Parser, ds: string, i: int): (res: Result)
    requires Finishable(p)
    ensures res.p.Some? ==> Ready(res.p.value) && res.p.value.dlen == p.dlen && SameState(p, res.p.value)
  {
    match p.stateDate
    case DateDigit => DigitFinish(p, ds)
    case DateYearDashDashOffset =>
      var n := p.dlen - p.offseti;
      Result(Some(p.(layout := Either(p.layout, p.offseti, n, 5, "-0700", 6, "-07:00"))), None)
    case DateYearDashAlphaDash => Result(Some(p.(daylen := i - p.dayi).SetDay()), None)
    case DateDigitDashAlphaDash => Result(Some(DashYear(p, |ds| - (p.moi + p.molen + 1))), None)
    case DateDigitDot => Result(Some(p.(molen := i - p.moi).SetMonth()), None)
    case DateDigitWsMolong =>
      Result(Some(p.(layout := Lit(if p.daylen == 2 then "02 January 2006" else "2 January 2006"))), None)
    case DateAlphaWsMonth | DateAlphaWsDigitMoreWs => Result(Some(p.(yearlen := i - p.yeari).SetYear()), None)
    case _ => if Accepting(p.stateDate) then Result(Some(p), None) else Result(None, Some(Unknown))
  }

  // ---------------------------------------------------------------- parseTime

  /** One pass over the input: either a result, or an order to parse another string. */
  datatype Pass =
    | Done(res: Result, ds: string)
    | Again(s: string, keepOptions: bool, ds: string)

  /** The end of a pass that has run the time loop. */
  function EndTime(p: Parser, ds: string, i: int): (r: Pass)
    requires TimeEndInv(p, ds, i)
    ensures r.Done? && r.ds == ds
    ensures r.res.p.Some? ==> Ready(r.res.p.value) && r.res.p.value.dlen <= |ds| && (p.dlen > 0 ==> r.res.p.value.dlen > 0)
  {
    hide TimeFinish, Finish;
    match TimeFinish(p, ds, i)
    case Return(res) => Done(res, ds)
    case Break(u, _, k) => Done(Finish(u.CoalesceTime(k), ds, k), ds)
  }

  /** The time half of a pass, from the end of the date loop. */
  function ScanTime(p: Parser, s: string, i: nat): (r: Pass)
    requires DateEndInv(p, s, i) && p.stateTime.TimeStart?
    ensures r.Again? ==> |r.s| == |s| && Commas(r.s) < Commas(s)
    ensures r.Done? ==> |r.ds| == |s| && (r.res.p.Some? ==> Ready(r.res.p.value) && r.res.p.value.dlen <= |s| && (s != "" ==> r.res.p.value.dlen > 0))
  {
    hide RunTime, EndTime;
    match RunTime(p, s, SkipSpaces(s, if i < |s| then i + 1 else i))
    case Restart(t, keep, d) => Again(t, keep, d)
    case Break(q, d, j) => EndTime(q, d, j)
  }

  lemma CoalesceDateInv(p: Parser, s: string, i: int)
    requires DateEndInv(p, s, i)
    ensures DateEndInv(p.CoalesceDate(i), s, i) && p.CoalesceDate(i).stateTime == p.stateTime
  {}

  function Scan(s: string, pref: bool): (r: Pass)
    ensures r.Again? ==> |r.s| < |s| || (|r.s| == |s| && Commas(r.s) < Commas(s))
    ensures r.Done? ==> |r.ds| == |s| && (r.res.p.Some? ==> Ready(r.res.p.value) && r.res.p.value.dlen <= |s| && (s != "" ==> r.res.p.value.dlen > 0))
  {
    hide RunDate, ScanTime, Finish;
    match RunDate(NewParser(|s|), pref, s, 0)
    case Return(res) => Done(res, s)
    case Restart(t, keep, d) => Again(t, keep, d)
    case Break(q, _, i) =>
      var p := q.CoalesceDate(i);
      if p.stateTime.TimeStart? then ScanTime(p, s, i) else Done(Finish(p, s, i), s)
  }

  /** A parser that parseTime returned: its string is a prefix of `ds`, its buffer a
      layout over `input`; with the location and preference it was made with. */
  datatype Parsed = Parsed(p: Parser, ds: string, input: string, loc: Loc, preferMonthFirst: bool)

  ghost predicate Sound(x: Parsed) {
    Ready(x.p) && x.p.dlen <= |x.ds|
  }

  /** What time.Parse or time.ParseInLocation answers. */
  datatype LibResult = Time(nanos: int) | Failure(monthOutOfRange: bool)

  /** The library as a function of the layout, the string and the location. */
  type Lib = (string, string, Loc) -> LibResult

  /** parser.parse puts January for a full month name, then drops a skipped prefix. */
  function FullMonth(p: Parser): seq<Cell>
    requires Ready(p)
  {
    if p.fullMonth != "" && p.moi == 0 then Lit("January") + p.layout[|p.fullMonth|..] else p.layout
  }

  function Dropped(p: Parser): (n: nat)
    requires Ready(p)
    ensures n <= |FullMonth(p)| && n <= p.dlen
  {
    if p.skip > 0 && |FullMonth(p)| > p.skip then p.skip else 0
  }

  function ParsedLayout(x: Parsed): string
    requires Sound(x)
  {
    Render(FullMonth(x.p)[Dropped(x.p)..], x.input)
  }

  function ParsedInput(x: Parsed): string
    requires Sound(x)
  {
    x.ds[Dropped(x.p)..x.p.dlen]
  }

  function Parse(x: Parsed, lib: Lib): LibResult
    requires Sound(x)
  {
    if x.p.t.Some? then Time(x.p.t.value)
    else lib(ParsedLayout(x), ParsedInput(x), if x.p.zulu then UTC else x.loc)
  }

  datatype Outcome = Outcome(x: Option<Parsed>, err: Option<Error>)

  function Wrap(res: Result, ds: string, input: string, loc: Loc, pref: bool): Outcome {
    Outcome(if res.p.Some? then Some(Parsed(res.p.value, ds, input, loc, pref)) else None, res.err)
  }

  /** parseTime.  The deferred function asks the library about an ambiguous date and, on a
      month out of range, parses again with the month and day exchanged.  It assigns the
      new parser but not the new error, which belongs to an inner scope. */
  function ParseTime(s: string, loc: Loc, o: Options, lib: Lib): (r: Outcome)
    ensures r.x.Some? ==> Sound(r.x.value)
    decreases if o.retry then 1 else 0, |s|, Commas(s)
  {
    hide Scan;
    var pass := Scan(s, o.preferMonthFirst);
    var r := if pass.Again? then ParseTime(pass.s, loc, if pass.keepOptions then o else DEFAULTS, lib)
             else Wrap(pass.res, pass.ds, s, loc, o.preferMonthFirst);
    if o.retry && r.x.Some? && r.x.value.p.ambiguousMD && Parse(r.x.value, lib) == Failure(true) then
      Outcome(ParseTime(pass.ds, Local, Options(!r.x.value.preferMonthFirst, false), lib).x, r.err)
    else r
  }
}

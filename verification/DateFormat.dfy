// The entry points built on parseTime, and what ParseDateFormat promises of its layout.
module DateFormat {
  import opened DateText
  import opened DateParser
  import opened DateAgree
  import opened DateRestart
  import opened DateShape
  import opened DateRetry
  import DateMachine

  lemma FinishHasParser(p: Parser, ds: string, i: int)
    requires Finishable(p)
    ensures Finish(p, ds, i).err.None? ==> Finish(p, ds, i).p.Some?
  {
    hide Write, Either, Roles, UnixStamp, Lit;
  }

  lemma TimeHasParser(p: Parser, s: string, i: nat)
    requires DateEndInv(p, s, i) && p.stateTime.TimeStart?
    ensures var r := ScanTime(p, s, i); r.Done? && r.res.err.None? ==> r.res.p.Some?
  {
    hide RunTime, TimeFinish, Finish;
    var f := RunTime(p, s, SkipSpaces(s, if i < |s| then i + 1 else i));
    if f.Break? {
      var g := TimeFinish(f.p, f.ds, f.i);
      if g.Break? { FinishHasParser(g.p.CoalesceTime(g.i), f.ds, g.i); }
    }
  }

  lemma ScanHasParser(s: string, pref: bool)
    ensures var r := Scan(s, pref); r.Done? && r.res.err.None? ==> r.res.p.Some?
  {
    hide RunDate, ScanTime, Finish;
    var f := RunDate(NewParser(|s|), pref, s, 0);
    if f.Break? {
      CoalesceDateInv(f.p, s, f.i);
      var p := f.p.CoalesceDate(f.i);
      if p.stateTime.TimeStart? { TimeHasParser(p, s, f.i); } else { FinishHasParser(p, s, f.i); }
    }
  }

  /** When parseTime reports no error there is a parser to use, whatever the options. */
  lemma {:induction false} SuccessHasParser(s: string, loc: Loc, o: Options, lib: Lib)
    ensures var r := ParseTime(s, loc, o, lib); r.err.None? ==> r.x.Some?
    decreases |s|, Commas(s), o.retry
  {
    hide Scan, Sound;
    if o.retry {
      RetryKeepsTheOutcome(s, loc, o.preferMonthFirst, lib);
      SuccessHasParser(s, loc, Options(o.preferMonthFirst, false), lib);
    } else {
      ScanHasParser(s, o.preferMonthFirst);
      var a := Scan(s, o.preferMonthFirst);
      if a.Again? { SuccessHasParser(a.s, loc, if a.keepOptions then o else DEFAULTS, lib); }
    }
  }

  lemma BufferIsRendered(q: DateMachine.LiveParser, x: Parsed)
    requires q.Is(x)
    ensures q.format == Render(x.p.layout, x.input)
  {}

  /** ParseDateFormat.  The layout of a Unix time is the number itself. */
  method ParseDateFormat(s: string, o: Options, lib: Lib) returns (layout: Option<string>)
    ensures var r := DateParser.ParseTime(s, NoLoc, o, lib);
            && (layout.Some? <==> r.err.None? && r.x.Some? && DateParser.Parse(r.x.value, lib).Time?)
            && (layout.Some? && r.x.value.p.t.None? ==> layout.value == ParsedLayout(r.x.value))
            && (layout.Some? && r.x.value.p.t.Some? ==> layout.value == AfterWeekdays(s) && StampAfterWeekdays(s))
  {
    hide DateParser.ParseTime, DateParser.Parse, StampAfterWeekdays, AfterWeekdays, ParsedLayout, ParsedInput, DateMachine.LiveParser.Valid;
    var q, err := DateMachine.ParseTime(s, NoLoc, o, lib);
    if err.Some? { return None; }
    SuccessHasParser(s, NoLoc, o, lib);
    BufferIsRendered(q, DateParser.ParseTime(s, NoLoc, o, lib).x.value);
    var answer := q.Parse(lib, DateParser.ParseTime(s, NoLoc, o, lib).x.value);
    if answer.Failure? { return None; }
    TimeIsStamp(s, NoLoc, o, lib);
    return Some(q.format);
  }

  /** The promise: any string of the same shape, about which the deferred retry hears the
      same, succeeds too, with a layout that agrees with the first one everywhere. */
  lemma FormatFits(s: string, t: string, loc: Loc, o: Options, lib: Lib)
    requires SameShape(s, t) && !StampAfterWeekdays(s)
    requires Verdicts(s, loc, o, lib) == Verdicts(t, loc, o, lib)
    requires ParseTime(s, loc, o, lib).err.None?
    ensures var a, b := ParseTime(s, loc, o, lib), ParseTime(t, loc, o, lib);
            && a.x.Some? && b.err.None? && b.x.Some? && b.x.value.p == a.x.value.p
            && |ParsedLayout(a.x.value)| == |ParsedLayout(b.x.value)|
            && forall k :: 0 <= k < |ParsedLayout(a.x.value)| ==> AgreeAt(a.x.value, b.x.value, k)
  {
    hide ParseTime, StampAfterWeekdays, Verdicts, ParsedLayout, FullMonth, Dropped;
    ShapeFixesOutcome(s, t, loc, o, lib);
    SuccessHasParser(s, loc, o, lib);
    var x, y := ParseTime(s, loc, o, lib).x.value, ParseTime(t, loc, o, lib).x.value;
    LayoutLength(x, y);
    forall k | 0 <= k < |ParsedLayout(x)| ensures AgreeAt(x, y, k) { LayoutsAgree(x, y, k); }
  }

  lemma LayoutLength(x: Parsed, y: Parsed)
    requires Sound(x) && Sound(y) && x.p == y.p
    ensures |ParsedLayout(x)| == |ParsedLayout(y)| == |FullMonth(x.p)| - Dropped(x.p)
  {}

  /** Asking the library about an ambiguous date uses the buffer and the string as they are,
      so that asking twice is asking the same. */
  lemma AskingAmbiguousIsPlain(x: Parsed)
    requires Sound(x) && x.p.ambiguousMD
    ensures ParsedLayout(x) == Render(x.p.layout, x.input) && ParsedInput(x) == x.ds[..x.p.dlen]
  {
    assert x.p.layout[0..] == x.p.layout && x.ds[0..x.p.dlen] == x.ds[..x.p.dlen];
  }
}

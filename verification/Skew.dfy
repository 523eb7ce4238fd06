// A skew: up to three fake images in one process, injected in order and recovered.
module Skews {
  import opened Int64
  import opened Memory
  import opened Linker
  import opened Tracee
  import opened Injection
  import opened FakeImages
  import opened Rooms
  import opened Layouts
  import opened Sessions
  import opened EndToEnd
  import Clock

  /** A fake image at one moment, with the function it replaces. */
  datatype View = View(arch: Arch, content: seq<byte>, offset: map<string, nat>, s: Symbol, orig: seq<byte>,
                       entry: Option<Region>, code: Option<seq<byte>>, at: nat, maps: nat)

  ghost predicate Fine(m: Mem, v: View) {
    && Laid(v.arch, v.content, v.offset)
    && Injected(v.arch, v.content, |v.offset|, m, v.s, v.orig, v.entry, v.code, v.at)
    && v.maps == if v.entry.Some? then 1 else 0
  }

  /** The bytes an image may write, or relies on: its function and its region. */
  predicate Own(s: Symbol, entry: Option<Region>, x: nat) {
    s.addr <= x < s.addr + Span(s.size) || (entry.Some? && entry.value.start <= x < entry.value.end)
  }

  ghost predicate Clear(v: View, w: View) {
    forall x :: !(Own(v.s, v.entry, x) && Own(w.s, w.entry, x))
  }

  /** Nothing was unmapped, and only an image's own bytes differ. */
  ghost predicate OnlyOwn(m: Mem, r: Mem, w: View) {
    forall x :: x in m ==> x in r && (Own(w.s, w.entry, x) || r[x] == m[x])
  }

  /** Several images in one process, each as every run of its own keeps it. */
  ghost predicate AllFine(m: Mem, views: seq<View>) {
    && (forall i :: 0 <= i < |views| ==> Fine(m, views[i]))
    && (forall i, j :: 0 <= i < |views| && 0 <= j < |views| && i != j ==> Clear(views[i], views[j]))
  }

  /** The image is the same, and its region too unless it is new. */
  ghost predicate Follows(m: Mem, v: View, w: View) {
    && w.arch == v.arch && w.content == v.content && w.offset == v.offset && w.s == v.s && w.orig == v.orig
    && (w.entry == v.entry || (w.entry.Some? && Free(m, w.entry.value)))
  }

  lemma OwnIsMapped(m: Mem, v: View)
    requires Fine(m, v)
    ensures forall x :: Own(v.s, v.entry, x) ==> x in m
  {
    hide Span, JumpBytes, Load;
  }

  lemma ClearStays(m: Mem, v: View, w: View, w': View)
    requires Fine(m, v) && Clear(v, w) && Follows(m, w, w')
    ensures Clear(v, w') && Clear(w', v)
  {
    OwnIsMapped(m, v);
    hide Fine, Span;
    forall x ensures !(Own(v.s, v.entry, x) && Own(w'.s, w'.entry, x)) {
      assert !(Own(v.s, v.entry, x) && Own(w.s, w.entry, x));
    }
  }

  lemma OtherKeeps(m: Mem, r: Mem, v: View, w: View)
    requires Fine(m, v) && Clear(v, w) && OnlyOwn(m, r, w)
    ensures Fine(r, v)
  {
    hide Span, JumpBytes, Load, Laid;
    OwnIsMapped(m, v);
    assert Undisturbed(v.arch, v.content, |v.offset|, m, r, v.s, v.entry) by {
      forall x | Own(v.s, v.entry, x) ensures x in r && r[x] == m[x] { assert !Own(w.s, w.entry, x); }
    }
    UndisturbedKeeps(v.arch, v.content, |v.offset|, m, r, v.s, v.orig, v.entry, v.code, v.at);
  }

  /** One image's step leaves the others as they were. */
  lemma StepKeepsAll(m: Mem, r: Mem, views: seq<View>, k: nat, w: View)
    requires AllFine(m, views) && k < |views| && Follows(m, views[k], w)
    requires Fine(r, w) && OnlyOwn(m, r, w)
    ensures AllFine(r, views[k := w])
  {
    hide Fine, Clear, Follows, OnlyOwn;
    forall i | 0 <= i < |views| && i != k
      ensures Fine(r, views[i]) && Clear(views[i], w) && Clear(w, views[i]) {
      ClearStays(m, views[i], views[k], w);
      OtherKeeps(m, r, views[i], w);
    }
  }

  lemma SlotsAreOwn(m: Mem, r: Mem, w: View, base: nat)
    requires w.entry.Some? && base == w.entry.value.start && w.entry.value.end == base + |w.content|
    requires Slotted(w.arch, w.content, w.offset)
    requires VariablesOnly(w.arch, m, r, base, w.offset)
    ensures OnlyOwn(m, r, w)
  {
    hide Span;
    forall x | x in m && !Own(w.s, w.entry, x) ensures r[x] == m[x] { assert !InSlot(w.arch, base, w.offset, x); }
  }

  /** An image's variables outlast what another image does. */
  lemma OtherReads(m: Mem, r: Mem, v: View, w: View, variables: map<string, nat>)
    requires Fine(m, v) && Clear(v, w) && OnlyOwn(m, r, w) && v.entry.Some?
    requires VariablesHold(v.arch, m, v.entry.value.start, v.offset, variables)
    ensures VariablesHold(v.arch, r, v.entry.value.start, v.offset, variables)
  {
    hide Span, SlotHolds, Variable, Injected;
    var base := v.entry.value.start;
    FineShape(m, v);
    forall k | k in variables
      ensures k in v.offset && SlotHolds(v.arch, r, base + v.offset[k], variables[k])
              && Variable(v.arch, r, base + v.offset[k]) == Some(variables[k]) {
      var slot := base + v.offset[k];
      OwnIsMapped(m, v);
      forall x | slot <= x < slot + VarLength(v.arch) ensures x in r && r[x] == m[x] {
        assert Own(v.s, v.entry, x) && !Own(w.s, w.entry, x);
      }
      StillHolds(v.arch, m, r, slot, variables[k]);
      HeldIsRead(v.arch, r, slot, variables[k]);
    }
  }

  lemma SpanIsOwn(m: Mem, r: Mem, w: View, n: nat)
    requires n <= Span(w.s.size) && OnlyAt(m, r, w.s.addr, n)
    ensures OnlyOwn(m, r, w)
  {
    hide Span;
  }

  lemma RewriteIsOwn(m: Mem, w: View)
    requires |w.orig| == w.s.size
    ensures OnlyOwn(m, Store(m, w.s.addr, Aligned(w.orig)), w) && OnlyOwn(m, m, w)
  {}

  // ---------------------------------------------------------------- the images of a skew

  /** A vDSO function and the bytes it had before anything was injected. */
  datatype Target = Target(s: Symbol, orig: seq<byte>)

  ghost function ViewOf(image: FakeImage, t: Target): View reads image {
    View(image.arch, image.content, image.offset, t.s, t.orig,
         image.fakeEntry, image.originFuncCode, image.originAddress, image.maps)
  }

  lemma FineIsGood(image: FakeImage, m: Mem, t: Target)
    ensures Fine(m, ViewOf(image, t)) <==> image.Good(m, t.s, t.orig)
  {
    hide Span, JumpBytes, Load;
  }

  /** One attach among other images, from one state of the process to the next: when it
      succeeds, where a new image then is, and what it changes.  By Fine the function jumps to
      the image if its bytes are saved. */
  ghost predicate Attempt(program: TracedProgram, v: View, w: View, regs: Regs, m: Mem, c: nat, r: Mem, d: nat,
                          lookup: Lookup, variables: map<string, nat>, ok: bool) {
    && c <= d && Fine(r, w) && OnlyOwn(m, r, w) && Follows(m, v, w)
    && (ok <==> Succeeds(program, v.content, v.offset, v.entry, regs, m, c, lookup, variables))
    && (ok ==> Attached(v, w, r, variables))
    && (v.entry.Some? ==> w.entry == v.entry && forall x :: x in r <==> x in m)
    && (ok && v.entry.None? && program.pageSize > 0 ==>
          && w.entry.value.start == PlaceOf(program, |v.content|, regs, m, c + 1)
          && Grows(m, r, w.entry.value.start, Larger(|v.content|, program.pageSize)))
  }

  /** AttachToProcess, with other images in the process. */
  method AttachAmong(image: FakeImage, program: TracedProgram, lookup: Lookup, variables: map<string, nat>,
                     names: seq<string>, ghost t: Target, ghost views: seq<View>, ghost k: nat,
                     ghost n: nat, ghost left: nat) returns (ok: bool)
    requires program.Valid() && program.arch == image.arch && (forall c: nat :: !program.fails(c))
    requires Enumerates(names, variables) && forall n :: n in variables ==> variables[n] < TWO64
    requires lookup.Found? ==> lookup.symbol == t.s
    requires AllFine(program.mem, views) && k < |views| && views[k] == ViewOf(image, t)
    modifies image, program
    ensures program.Valid() && AllFine(program.mem, views[k := ViewOf(image, t)]) && program.regs == old(program.regs)
    ensures Attempt(program, views[k], ViewOf(image, t), program.regs, old(program.mem), old(program.calls),
                    program.mem, program.calls, lookup, variables, ok)
    ensures OnlyOwn(old(program.mem), program.mem, ViewOf(image, t))
    ensures ok ==> Attached(views[k], ViewOf(image, t), program.mem, variables)
    ensures left > 0 && RoomLeft(program, program.regs, old(program.mem), n, left) && Prepared(program, views[k], lookup, variables, n) ==>
              ok && RoomLeft(program, program.regs, program.mem, n, left - 1)
  {
    hide Generous, Spacious, Borrowable, Prepared, RoomLeft;
    hide Injected, Laid, VariablesOnly, VariablesHold, OnlyAt, Free, Span, Enumerates, OnlyOwn, AllFine, Slotted, Succeeds;
    hide Locatable, Replaces, Grows, Larger, WholePages, PlaceOf, Recognised, Mapped;
    ghost var m, c, v := program.mem, program.calls, views[k];
    Among(m, views, k);
    FineIsGood(image, m, t);
    FineIsLocatable(m, v, lookup);
    ok := image.AttachToProcess(program, lookup, variables, names, t.s, t.orig);
    FineIsGood(image, program.mem, t);
    ghost var w := ViewOf(image, t);
    FineShape(program.mem, w);
    if v.entry.Some? {
      SlotsAreOwn(m, program.mem, w, w.entry.value.start);
      SameKeys(w.arch, m, program.mem, w.entry.value.start, w.content, w.offset);
    } else {
      SpanIsOwn(m, program.mem, w, if ok then 16 else Span(t.s.size));
    }
    StepKeepsAll(m, program.mem, views, k, w);
    if left > 0 && RoomLeft(program, program.regs, m, n, left) {
      AttemptSucceeds(program, v, w, program.regs, m, c, program.mem, program.calls, lookup, variables, ok, n, left);
    }
  }

  lemma FineIsLocatable(m: Mem, v: View, lookup: Lookup)
    requires Fine(m, v) && (lookup.Found? ==> lookup.symbol == v.s)
    ensures Locatable(m, lookup) && Slotted(v.arch, v.content, v.offset)
  {
    hide Span, JumpBytes, Load;
  }

  lemma Among(m: Mem, views: seq<View>, k: nat)
    requires AllFine(m, views) && k < |views|
    ensures Fine(m, views[k])
  {}

  lemma FineShape(m: Mem, w: View)
    requires Fine(m, w)
    ensures |w.orig| == w.s.size && Slotted(w.arch, w.content, w.offset)
    ensures w.entry.Some? ==> w.entry.value.end == w.entry.value.start + |w.content|
    ensures 16 <= Span(w.s.size)
  {
    hide JumpBytes, Load;
  }

  /** Recover, with other images in the process. */
  method RecoverAmong(image: FakeImage, program: TracedProgram, varNum: nat, ghost t: Target, ghost views: seq<View>,
                      ghost k: nat) returns (ok: bool)
    requires program.Valid() && program.arch == image.arch && (forall c: nat :: !program.fails(c))
    requires AllFine(program.mem, views) && k < |views| && views[k] == ViewOf(image, t)
    modifies image, program
    ensures program.Valid() && AllFine(program.mem, views[k := ViewOf(image, t)])
    ensures varNum == |image.offset| ==> ok && image.originFuncCode.None?
  {
    hide Injected, Laid, OnlyAt, Free, Span, OnlyOwn, AllFine, Store, Aligned;
    ghost var m := program.mem;
    Among(m, views, k);
    FineIsGood(image, m, t);
    FineShape(m, ViewOf(image, t));
    ok := image.Recover(program, varNum, t.s, t.orig);
    FineIsGood(image, program.mem, t);
    ghost var w := ViewOf(image, t);
    RewriteIsOwn(m, w);
    StepKeepsAll(m, program.mem, views, k, w);
  }

  class Skew {
    const config: Clock.Config
    // There is none on arm64.
    const time: FakeImage?
    const clockGetTime: FakeImage
    const getTimeOfDay: FakeImage
    ghost const timeAt: Target
    ghost const clockAt: Target
    ghost const dayAt: Target

    ghost predicate Valid(program: TracedProgram)
      reads this, config, program, clockGetTime, getTimeOfDay, if time == null then {} else {time}
    {
      && config.Valid() && program.Valid() && (forall c: nat :: !program.fails(c))
      && clockGetTime != getTimeOfDay && time != clockGetTime && time != getTimeOfDay
      && clockGetTime.arch == getTimeOfDay.arch == program.arch && (time != null ==> time.arch == program.arch)
      && AllFine(program.mem, Views())
    }

    ghost function Views(): (v: seq<View>)
      reads this, clockGetTime, getTimeOfDay, if time == null then {} else {time}
      ensures |v| >= 2
    {
      [ViewOf(clockGetTime, clockAt), ViewOf(getTimeOfDay, dayAt)] + (if time == null then [] else [ViewOf(time, timeAt)])
    }

    ghost function TimeView(): View reads this, clockGetTime, if time == null then {} else {time} {
      if time == null then ViewOf(clockGetTime, clockAt) else ViewOf(time, timeAt)
    }

    ghost function ClockView(): View reads this, clockGetTime { ViewOf(clockGetTime, clockAt) }

    ghost function DayView(): View reads this, getTimeOfDay { ViewOf(getTimeOfDay, dayAt) }

    constructor (config: Clock.Config, time: FakeImage?, clockGetTime: FakeImage, getTimeOfDay: FakeImage,
                 ghost timeAt: Target, ghost clockAt: Target, ghost dayAt: Target)
      ensures this.config == config && this.time == time
      ensures this.clockGetTime == clockGetTime && this.getTimeOfDay == getTimeOfDay
      ensures this.timeAt == timeAt && this.clockAt == clockAt && this.dayAt == dayAt
    {
      this.config, this.time, this.clockGetTime, this.getTimeOfDay := config, time, clockGetTime, getTimeOfDay;
      this.timeAt, this.clockAt, this.dayAt := timeAt, clockAt, dayAt;
    }

    /** What the images are given. */
    ghost function Two(): map<string, nat> reads config {
      if config.Valid() then Deltas(config.deltaSeconds, config.deltaNanoSeconds) else map[]
    }

    ghost function Three(): map<string, nat> reads config {
      if config.Valid() then Variables(config.deltaSeconds, config.deltaNanoSeconds, config.clockIDsMask) else map[]
    }

    /** Inject: time, then clock_gettime, then gettimeofday, stopping at the first error.  The
        memory and the calls made are m1, c1 after the first attach and m2, c2 after the second;
        each attach goes from one of these states to the next, or leaves the process as the last
        one did.  After success every image reads the configured values.  A generous kernel and
        a memory with room for three mappings of so many bytes are enough. */
    method Inject(program: TracedProgram, timeLookup: Lookup, clockLookup: Lookup, dayLookup: Lookup,
                  deltas: seq<string>, all: seq<string>, ghost room: nat)
      returns (ok: bool, first: bool, second: bool, ghost m1: Mem, ghost c1: nat, ghost m2: Mem, ghost c2: nat)
      requires Valid(program)
      requires timeLookup.Found? ==> timeLookup.symbol == timeAt.s
      requires clockLookup.Found? ==> clockLookup.symbol == clockAt.s
      requires dayLookup.Found? ==> dayLookup.symbol == dayAt.s
      requires Enumerates(deltas, Deltas(0, 0)) && Enumerates(all, Variables(0, 0, 0))
      modifies program, clockGetTime, getTimeOfDay, if time == null then {} else {time}
      ensures Valid(program) && program.regs == old(program.regs)
      ensures var before := Then(old(TimeView()), old(ClockView()), old(DayView()), old(program.mem), old(program.calls));
              var after := Then(TimeView(), ClockView(), DayView(), program.mem, program.calls);
              InTurn(program, program.regs, time != null, before, m1, c1, m2, c2, after,
                     timeLookup, clockLookup, dayLookup, old(Two()), old(Three()), first, second, ok)
      ensures ok ==> Attached(old(ClockView()), ClockView(), program.mem, old(Three()))
      ensures ok ==> Attached(old(DayView()), DayView(), program.mem, old(Two()))
      ensures ok && time != null ==> Attached(old(TimeView()), TimeView(), program.mem, old(Two()))
      ensures ok ==>
                && Reads(clockGetTime, program.mem, "TV_SEC_DELTA", ToUint64(config.deltaSeconds))
                && Reads(clockGetTime, program.mem, "TV_NSEC_DELTA", ToUint64(config.deltaNanoSeconds))
                && Reads(clockGetTime, program.mem, "CLOCK_IDS_MASK", config.clockIDsMask)
                && Reads(getTimeOfDay, program.mem, "TV_SEC_DELTA", ToUint64(config.deltaSeconds))
                && Reads(getTimeOfDay, program.mem, "TV_NSEC_DELTA", ToUint64(config.deltaNanoSeconds))
      ensures ok && time != null ==>
                && Reads(time, program.mem, "TV_SEC_DELTA", ToUint64(config.deltaSeconds))
                && Reads(time, program.mem, "TV_NSEC_DELTA", ToUint64(config.deltaNanoSeconds))
      ensures (&& old(RoomLeft(program, program.regs, program.mem, room, 3))
               && (time != null ==> old(Prepared(program, TimeView(), timeLookup, Two(), room)))
               && old(Prepared(program, ClockView(), clockLookup, Three(), room))
               && old(Prepared(program, DayView(), dayLookup, Two(), room))) ==> ok
    {
      hide AllFine, Enumerates, VariablesHold, Succeeds, OnlyOwn, Fine, Clear, Follows, Attempt, RoomLeft, Prepared, Attached, InTurn, AfterFirst, Reads;
      var two := Deltas(config.deltaSeconds, config.deltaNanoSeconds);
      var three := Variables(config.deltaSeconds, config.deltaNanoSeconds, config.clockIDsMask);
      SameDeltas(deltas, config.deltaSeconds, config.deltaNanoSeconds);
      SameVariables(all, config.deltaSeconds, config.deltaNanoSeconds, config.clockIDsMask);
      ghost var a := Then(TimeView(), ClockView(), DayView(), program.mem, program.calls);
      ghost var v := Views();
      first := true;
      if time != null {
        first := AttachAmong(time, program, timeLookup, two, deltas, timeAt, v, 2, room, 3);
        assert Views() == v[2 := TimeView()];
      } else {
        LessRoom(program, program.regs, program.mem, room, 2);
      }
      v, m1, c1, m2, c2, second := Views(), program.mem, program.calls, program.mem, program.calls, false;
      ghost var b1 := Then(TimeView(), ClockView(), DayView(), m1, c1);
      FirstDone(program, program.regs, time != null, a, b1, timeLookup, two, first);
      if !first {
        StoppedAtFirst(program, program.regs, time != null, a, b1, timeLookup, clockLookup, dayLookup, two, three);
        return false, first, second, m1, c1, m2, c2;
      }
      second := AttachAmong(clockGetTime, program, clockLookup, three, all, clockAt, v, 0, room, 2);
      assert Views() == v[0 := ClockView()];
      m2, c2 := program.mem, program.calls;
      ghost var b2 := Then(TimeView(), ClockView(), DayView(), m2, c2);
      if !second {
        StoppedAtSecond(program, program.regs, time != null, a, b1, b2, timeLookup, clockLookup, dayLookup, two, three);
        return false, first, second, m1, c1, m2, c2;
      }
      if time != null { StillReads(m1, m2, v, Views(), 2, 0, a.time, two); }
      v := Views();
      ok := AttachAmong(getTimeOfDay, program, dayLookup, two, deltas, dayAt, v, 1, room, 1);
      assert Views() == v[1 := DayView()];
      AllTried(program, program.regs, time != null, a, b1, b2, Then(TimeView(), ClockView(), DayView(), program.mem, program.calls),
               timeLookup, clockLookup, dayLookup, two, three, ok);
      if !ok { return; }
      if time != null { StillReads(m2, program.mem, v, Views(), 2, 1, a.time, two); }
      StillReads(m2, program.mem, v, Views(), 0, 1, a.clock, three);
      ReadsThree(clockGetTime, clockAt, program.mem, a.clock, config.deltaSeconds, config.deltaNanoSeconds, config.clockIDsMask);
      ReadsTwo(getTimeOfDay, dayAt, program.mem, a.day, config.deltaSeconds, config.deltaNanoSeconds);
      if time != null { ReadsTwo(time, timeAt, program.mem, a.time, config.deltaSeconds, config.deltaNanoSeconds); }
    }

    /** Recover: clock_gettime, then gettimeofday, whatever came of the first.  The time image
        is left as it is, and its function goes on jumping to it. */
    method Recover(program: TracedProgram) returns (ok: bool)
      requires Valid(program)
      modifies program, clockGetTime, getTimeOfDay
      ensures Valid(program)
      ensures |clockGetTime.offset| == 3 ==> clockGetTime.originFuncCode.None?
      ensures |getTimeOfDay.offset| == 2 ==> getTimeOfDay.originFuncCode.None?
      ensures |clockGetTime.offset| == 3 && |getTimeOfDay.offset| == 2 ==> ok
      ensures time != null && time.originFuncCode.Some? ==> Jumps(time, timeAt, program.mem)
    {
      hide AllFine;
      ghost var v := Views();
      ok := RecoverAmong(clockGetTime, program, 3, clockAt, v, 0);
      assert Views() == v[0 := ViewOf(clockGetTime, clockAt)];
      v := Views();
      var second := RecoverAmong(getTimeOfDay, program, 2, dayAt, v, 1);
      assert Views() == v[1 := ViewOf(getTimeOfDay, dayAt)];
      ok := ok && second;
      if time != null && time.originFuncCode.Some? {
        Among(program.mem, Views(), 2);
        FineJumps(time, timeAt, program.mem);
      }
    }
  }

  /** The code of a mapped image gets that value when it reads the variable of that name. */
  ghost predicate Reads(image: FakeImage, m: Mem, name: string, value: nat) reads image {
    && image.fakeEntry.Some? && name in image.offset
    && Variable(image.arch, m, image.fakeEntry.value.start + image.offset[name]) == Some(value)
  }

  lemma ReadsTwo(image: FakeImage, t: Target, m: Mem, v: View, s: int, n: int)
    requires InInt64(s) && InInt64(n) && Attached(v, ViewOf(image, t), m, Deltas(s, n))
    ensures Reads(image, m, "TV_SEC_DELTA", ToUint64(s)) && Reads(image, m, "TV_NSEC_DELTA", ToUint64(n))
  {
    hide Variable, SlotHolds;
    assert SEC_DELTA in Deltas(s, n) && NSEC_DELTA in Deltas(s, n);
  }

  lemma ReadsThree(image: FakeImage, t: Target, m: Mem, v: View, s: int, n: int, mask: nat)
    requires InInt64(s) && InInt64(n) && Attached(v, ViewOf(image, t), m, Variables(s, n, mask))
    ensures Reads(image, m, "TV_SEC_DELTA", ToUint64(s)) && Reads(image, m, "TV_NSEC_DELTA", ToUint64(n))
    ensures Reads(image, m, "CLOCK_IDS_MASK", mask)
  {
    hide Variable, SlotHolds;
    assert SEC_DELTA in Variables(s, n, mask) && NSEC_DELTA in Variables(s, n, mask) && MASK in Variables(s, n, mask);
  }

  /** The three images of a skew and the process, before or after injecting. */
  datatype Then = Then(time: View, clock: View, day: View, mem: Mem, calls: nat)

  ghost predicate AfterFirst(program: TracedProgram, regs: Regs, hasTime: bool, a: Then, b: Then, timeLookup: Lookup,
                             two: map<string, nat>, first: bool) {
    if hasTime then Attempt(program, a.time, b.time, regs, a.mem, a.calls, b.mem, b.calls, timeLookup, two, first)
    else first && b.mem == a.mem && b.calls == a.calls
  }

  /** The attaches one after the other: time, if there is one, then clock_gettime, then
      gettimeofday.  Each goes from the state the one before has left; at the first failure the
      process is left in that state, and the images that follow are untouched. */
  ghost predicate InTurn(program: TracedProgram, regs: Regs, hasTime: bool, a: Then, m1: Mem, c1: nat, m2: Mem, c2: nat, b: Then,
                         timeLookup: Lookup, clockLookup: Lookup, dayLookup: Lookup, two: map<string, nat>, three: map<string, nat>,
                         first: bool, second: bool, ok: bool) {
    && AfterFirst(program, regs, hasTime, a, b.(mem := m1, calls := c1), timeLookup, two, first)
    && (first ==> Attempt(program, a.clock, b.clock, regs, m1, c1, m2, c2, clockLookup, three, second))
    && (first && second ==> Attempt(program, a.day, b.day, regs, m2, c2, b.mem, b.calls, dayLookup, two, ok))
    && (!first ==> !ok && b.mem == m1 && b.calls == c1 && b.clock == a.clock && b.day == a.day)
    && (first && !second ==> !ok && b.mem == m2 && b.calls == c2 && b.day == a.day)
  }

  lemma FirstDone(program: TracedProgram, regs: Regs, hasTime: bool, a: Then, b: Then, timeLookup: Lookup,
                  two: map<string, nat>, first: bool)
    requires hasTime ==> Attempt(program, a.time, b.time, regs, a.mem, a.calls, b.mem, b.calls, timeLookup, two, first)
    requires !hasTime ==> first && b.mem == a.mem && b.calls == a.calls
    ensures AfterFirst(program, regs, hasTime, a, b, timeLookup, two, first)
  {
    hide Attempt;
  }

  lemma StoppedAtFirst(program: TracedProgram, regs: Regs, hasTime: bool, a: Then, b: Then,
                       timeLookup: Lookup, clockLookup: Lookup, dayLookup: Lookup, two: map<string, nat>, three: map<string, nat>)
    requires AfterFirst(program, regs, hasTime, a, b, timeLookup, two, false) && b.clock == a.clock && b.day == a.day
    ensures InTurn(program, regs, hasTime, a, b.mem, b.calls, b.mem, b.calls, b,
                   timeLookup, clockLookup, dayLookup, two, three, false, false, false)
  {
    hide Attempt;
    assert b.(mem := b.mem, calls := b.calls) == b;
  }

  lemma StoppedAtSecond(program: TracedProgram, regs: Regs, hasTime: bool, a: Then, b1: Then, b: Then,
                        timeLookup: Lookup, clockLookup: Lookup, dayLookup: Lookup, two: map<string, nat>, three: map<string, nat>)
    requires AfterFirst(program, regs, hasTime, a, b1, timeLookup, two, true) && (hasTime ==> b.time == b1.time) && b.day == a.day
    requires Attempt(program, a.clock, b.clock, regs, b1.mem, b1.calls, b.mem, b.calls, clockLookup, three, false)
    ensures InTurn(program, regs, hasTime, a, b1.mem, b1.calls, b.mem, b.calls, b,
                   timeLookup, clockLookup, dayLookup, two, three, true, false, false)
  {
    hide Attempt;
  }

  lemma AllTried(program: TracedProgram, regs: Regs, hasTime: bool, a: Then, b1: Then, b2: Then, b: Then,
                 timeLookup: Lookup, clockLookup: Lookup, dayLookup: Lookup, two: map<string, nat>, three: map<string, nat>, ok: bool)
    requires AfterFirst(program, regs, hasTime, a, b1, timeLookup, two, true) && (hasTime ==> b.time == b1.time) && b.clock == b2.clock
    requires Attempt(program, a.clock, b2.clock, regs, b1.mem, b1.calls, b2.mem, b2.calls, clockLookup, three, true)
    requires Attempt(program, a.day, b.day, regs, b2.mem, b2.calls, b.mem, b.calls, dayLookup, two, ok)
    ensures InTurn(program, regs, hasTime, a, b1.mem, b1.calls, b2.mem, b2.calls, b,
                   timeLookup, clockLookup, dayLookup, two, three, true, true, ok)
  {
    hide Attempt;
  }

  /** From v to w: there is an image; its function jumps to it if the image is new or it did so
      before; and it reads the variables as given. */
  ghost predicate Attached(v: View, w: View, m: Mem, variables: map<string, nat>) {
    && w.entry.Some?
    && (w.code.Some? <==> v.entry.None? || v.code.Some?)
    && VariablesHold(w.arch, m, w.entry.value.start, w.offset, variables)
  }

  /** After one image's step another still reads its variables. */
  lemma StillReads(m: Mem, r: Mem, before: seq<View>, after: seq<View>, i: nat, k: nat, v: View, variables: map<string, nat>)
    requires AllFine(m, before) && AllFine(r, after) && i < |before| == |after| && k < |before| && i != k
    requires after[i] == before[i] && OnlyOwn(m, r, after[k]) && Attached(v, before[i], m, variables)
    ensures Attached(v, after[i], r, variables)
  {
    hide VariablesHold, OnlyOwn, Fine, Clear;
    OtherReads(m, r, before[i], after[k], variables);
  }

  /** What an attach needs besides room. */
  ghost predicate Ready(content: seq<byte>, offset: map<string, nat>, entry: Option<Region>, lookup: Lookup, variables: map<string, nat>) {
    && |variables| == |offset| && !lookup.NoVdso? && (forall k :: k in variables ==> k in offset)
    && (entry.Some? || lookup.Found?)
  }

  /** With a generous kernel an attach that is ready succeeds exactly when the image is known
      or there is a gap for its pages. */
  lemma ReadyIsEnough(program: TracedProgram, content: seq<byte>, offset: map<string, nat>, entry: Option<Region>,
                      regs: Regs, m: Mem, calls: nat, lookup: Lookup, variables: map<string, nat>)
    requires program.Rules() && Generous(program)
    ensures Succeeds(program, content, offset, entry, regs, m, calls, lookup, variables)
            <==> && Ready(content, offset, entry, lookup, variables)
                 && (entry.Some? || (&& Borrowable(program, regs, m)
                                     && program.pageSize > 0 && Roomy(m, WholePages(|content|, program.pageSize))))
  {
    hide HasPages, Generous, TracedProgram.Rules, Roomy, WholePages;
    HasPagesWhen(program, |content|, regs, m, calls + 1);
  }

  /** An image that is ready and takes no more than n bytes of pages. */
  ghost predicate Prepared(program: TracedProgram, v: View, lookup: Lookup, variables: map<string, nat>, n: nat) {
    && Ready(v.content, v.offset, v.entry, lookup, variables)
    && program.pageSize > 0 && Larger(|v.content|, program.pageSize) <= n
  }

  /** Where there is room for k mappings, the attach succeeds and leaves room for k - 1. */
  lemma AttemptSucceeds(program: TracedProgram, v: View, w: View, regs: Regs, m: Mem, c: nat, r: Mem, d: nat,
                        lookup: Lookup, variables: map<string, nat>, ok: bool, n: nat, k: nat)
    requires program.Rules() && RoomLeft(program, regs, m, n, k) && k > 0
    requires Attempt(program, v, w, regs, m, c, r, d, lookup, variables, ok)
    ensures Prepared(program, v, lookup, variables, n) ==> ok && RoomLeft(program, regs, r, n, k - 1)
  {
    hide RoomLeft, HasPages, TracedProgram.Rules, Fine, VariablesHold, Larger, PlaceOf, Follows, OnlyOwn, Grows;
    if Prepared(program, v, lookup, variables, n) {
      RoomIsPages(program, regs, m, |v.content|, c + 1, n, k);
      assert ok;
      if v.entry.Some? {
        Unchanged(m, r);
        LargerIsPositive(|v.content|, program.pageSize);
        assert Grows(m, r, 0, Larger(|v.content|, program.pageSize));
      }
    }
  }

  lemma Unchanged(m: Mem, r: Mem)
    requires forall x :: x in r <==> x in m
    ensures forall n: nat :: Grows(m, r, 0, n)
  {}

  /** The function is a jump to the image. */
  ghost predicate Jumps(image: FakeImage, t: Target, m: Mem) reads image {
    && image.fakeEntry.Some? && Mapped(m, t.s.addr, 16)
    && JumpTarget(image.arch, Load(m, t.s.addr, 16)) == Some(image.fakeEntry.value.start)
  }

  lemma FineJumps(image: FakeImage, t: Target, m: Mem)
    requires Fine(m, ViewOf(image, t)) && image.originFuncCode.Some?
    ensures Jumps(image, t, m)
  {
    hide JumpBytes, JumpTarget;
    JumpReaches(image.arch, image.fakeEntry.value.start);
  }

  lemma SameDeltas(names: seq<string>, s: int, n: int)
    requires InInt64(s) && InInt64(n) && Enumerates(names, Deltas(0, 0))
    ensures Enumerates(names, Deltas(s, n))
  {}

  lemma SameVariables(names: seq<string>, s: int, n: int, mask: nat)
    requires InInt64(s) && InInt64(n) && Enumerates(names, Variables(0, 0, 0))
    ensures Enumerates(names, Variables(s, n, mask))
  {}
}

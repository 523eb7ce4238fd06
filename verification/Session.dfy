// Whole runs of the injector against one process, and what putting the function back
// gives back.
module Sessions {
  import opened Int64
  import opened Memory
  import opened Linker
  import opened Tracee
  import opened Injection
  import opened FakeImages

  /** What may happen to the process: attaching, recovering, or running on by itself. */
  datatype Event =
    | Attach(lookup: Lookup, variables: map<string, nat>, names: seq<string>)
    | Recover(varNum: nat)
    | Elapse(mem: Mem, regs: Regs)

  ghost predicate Proper(e: Event, s: Symbol) {
    e.Attach? ==>
      && Enumerates(e.names, e.variables) && (forall k :: k in e.variables ==> e.variables[k] < TWO64)
      && (e.lookup.Found? ==> e.lookup.symbol == s)
  }

  /** The process and the image between two events. */
  datatype Moment = Moment(mem: Mem, regs: Regs, calls: nat, entry: Option<Region>, code: Option<seq<byte>>, at: nat, maps: nat)

  ghost function Now(program: TracedProgram, image: FakeImage): Moment reads program, image {
    Moment(program.mem, program.regs, program.calls, image.fakeEntry, image.originFuncCode, image.originAddress, image.maps)
  }

  /** At every moment at most one image is mapped; OriginFuncCode, when there, holds the bytes
      the function had at the start, and the function is then a jump to that image; when it is
      not there the function has its bytes. */
  ghost predicate Standing(arch: Arch, content: seq<byte>, offset: map<string, nat>, s: Symbol, orig: seq<byte>, a: Moment) {
    && a.maps == (if a.entry.Some? then 1 else 0)
    && Mapped(a.mem, s.addr, Span(s.size)) && |orig| == s.size > 0
    && (a.entry.Some? ==> Recognised(arch, content, a.mem, a.entry.value.start, |offset|))
    && (a.code.Some? ==> && a.code.value == orig && a.at == s.addr && a.entry.Some?
                         && JumpTarget(arch, Load(a.mem, s.addr, 16)) == Some(a.entry.value.start))
    && (a.code.None? ==> Load(a.mem, s.addr, s.size) == orig)
  }

  /** What an event does, and what it reports. */
  ghost predicate Goes(program: TracedProgram, content: seq<byte>, offset: map<string, nat>, s: Symbol, orig: seq<byte>,
                       e: Event, a: Moment, b: Moment, ok: bool) {
    match e
    case Attach(lookup, variables, _) =>
      && (ok <==> Succeeds(program, content, offset, a.entry, a.regs, a.mem, a.calls, lookup, variables))
      && (ok ==> b.entry.Some? && VariablesHold(program.arch, b.mem, b.entry.value.start, offset, variables))
      && (ok ==> (b.code.Some? <==> a.entry.None? || a.code.Some?))
      && (a.entry.Some? ==>
            b.entry == a.entry && b.code == a.code && VariablesOnly(program.arch, a.mem, b.mem, a.entry.value.start, offset))
      && b.regs == a.regs
    case Recover(varNum) =>
      && (ok <==> a.code.None? || varNum * VarLength(program.arch) <= |content|)
      && (b.code.None? <==> || a.code.None?
                            || (a.entry.Some? && Recognised(program.arch, content, a.mem, a.entry.value.start, varNum)))
      && b.mem == (if b.code == a.code then a.mem else Store(a.mem, s.addr, Aligned(orig)))
      && b.entry == a.entry && b.regs == a.regs
    case Elapse(mem, regs) =>
      && (ok <==> Undisturbed(program.arch, content, |offset|, a.mem, mem, s, a.entry) && IpReg(program.arch) in regs)
      && b == if ok then a.(mem := mem, regs := regs) else a
  }

  lemma GoodStands(program: TracedProgram, image: FakeImage, s: Symbol, orig: seq<byte>)
    requires image.Good(program.mem, s, orig)
    ensures Standing(image.arch, image.content, image.offset, s, orig, Now(program, image))
  {
    hide JumpBytes, JumpTarget, Span;
    if image.fakeEntry.Some? {
      Seen(image.arch, image.content, image.offset, program.mem, s, orig, image.fakeEntry.value,
           image.originFuncCode, image.originAddress);
      JumpReaches(image.arch, image.fakeEntry.value.start);
    }
  }

  method OneEvent(program: TracedProgram, image: FakeImage, e: Event, s: Symbol, ghost orig: seq<byte>)
    returns (ok: bool)
    requires program.Valid() && program.arch == image.arch && (forall c: nat :: !program.fails(c))
    requires image.Good(program.mem, s, orig) && Proper(e, s)
    modifies program, image
    ensures program.Valid() && image.Good(program.mem, s, orig)
    ensures Goes(program, image.content, image.offset, s, orig, e, old(Now(program, image)), Now(program, image), ok)
  {
    hide Laid, Undisturbed, JumpBytes, Enumerates, VariablesOnly, VariablesHold, OnlyAt, Span, Succeeds, Injected;
    hide Recognised, Store, Aligned;
    match e
    case Attach(lookup, variables, names) =>
      ok := image.AttachToProcess(program, lookup, variables, names, s, orig);
    case Recover(varNum) =>
      if image.originFuncCode.Some? {
        SymbolMapped(image.arch, image.content, |image.offset|, program.mem, s, orig, image.fakeEntry,
                     image.originFuncCode, image.originAddress);
      }
      ok := image.Recover(program, varNum, s, orig);
    case Elapse(mem, regs) =>
      ok := && Undisturbed(program.arch, image.content, |image.offset|, program.mem, mem, s, image.fakeEntry)
            && IpReg(program.arch) in regs;
      if ok {
        UndisturbedKeeps(program.arch, image.content, |image.offset|, program.mem, mem, s, orig, image.fakeEntry,
                         image.originFuncCode, image.originAddress);
        program.mem, program.regs := mem, regs;
      }
  }

  /** Every moment is as Standing says, and each event did and reported what Goes says. */
  ghost predicate Told(program: TracedProgram, content: seq<byte>, offset: map<string, nat>, s: Symbol, orig: seq<byte>,
                       events: seq<Event>, history: seq<Moment>, results: seq<bool>) {
    && |results| <= |events| && |history| == |results| + 1
    && (forall i :: 0 <= i < |history| ==> Standing(program.arch, content, offset, s, orig, history[i]))
    && (forall i :: 0 <= i < |results| ==>
          Goes(program, content, offset, s, orig, events[i], history[i], history[i + 1], results[i]))
  }

  lemma ToldOn(program: TracedProgram, content: seq<byte>, offset: map<string, nat>, s: Symbol, orig: seq<byte>,
               events: seq<Event>, history: seq<Moment>, results: seq<bool>, b: Moment, ok: bool)
    requires Told(program, content, offset, s, orig, events, history, results) && |results| < |events|
    requires Standing(program.arch, content, offset, s, orig, b)
    requires Goes(program, content, offset, s, orig, events[|results|], history[|results|], b, ok)
    ensures Told(program, content, offset, s, orig, events, history + [b], results + [ok])
  {
    hide Goes, Standing;
  }

  /** Any sequence of attaches, in any order of the variables, recoveries and stretches in
      which the process runs without writing to the function or to the image's fixed part.
      The history holds the moments before, between and after the events: each event does and
      reports what Goes says, and every moment is as Standing says. */
  method Session(program: TracedProgram, content: seq<byte>, offset: map<string, nat>, events: seq<Event>, s: Symbol)
    returns (image: FakeImage, results: seq<bool>, ghost history: seq<Moment>)
    requires program.Valid() && (forall c: nat :: !program.fails(c))
    requires Laid(program.arch, content, offset)
    requires s.size > 0 && Mapped(program.mem, s.addr, Span(s.size))
    requires forall e :: e in events ==> Proper(e, s)
    modifies program
    ensures fresh(image) && |results| == |events| && |history| == |events| + 1
    ensures history[0].mem == old(program.mem) && history[0].regs == old(program.regs) && history[0].calls == old(program.calls)
    ensures history[0].entry.None? && history[0].code.None? && history[|events|] == Now(program, image)
    ensures var orig := old(Load(program.mem, s.addr, s.size));
            Told(program, content, offset, s, orig, events, history, results)
  {
    ghost var orig := Load(program.mem, s.addr, s.size);
    hide Laid, Undisturbed, JumpBytes, JumpTarget, Enumerates, VariablesOnly, VariablesHold, OnlyAt, Span, Succeeds, Goes, Standing;
    image := new FakeImage(program.arch, content, offset);
    ghost var start := Now(program, image);
    results, history := [], [start];
    FreshIsGood(program.arch, content, |offset|, program.mem, s, 0);
    GoodStands(program, image, s, orig);
    for i := 0 to |events|
      invariant program.Valid() && fresh(image)
      invariant image.arch == program.arch && image.content == content && image.offset == offset
      invariant image.Good(program.mem, s, orig)
      invariant |results| == i && |history| == i + 1 && history[i] == Now(program, image) && history[0] == start
      invariant Told(program, content, offset, s, orig, events, history, results)
    {
      hide Injected, Told;
      var ok := OneEvent(program, image, events[i], s, orig);
      GoodStands(program, image, s, orig);
      ToldOn(program, content, offset, s, orig, events, history, results, Now(program, image), ok);
      results, history := results + [ok], history + [Now(program, image)];
    }
  }

  // ---------------------------------------------------------------- inject, then recover

  /** The function's surroundings after a jump was written and the saved bytes put back. */
  function Recovered(arch: Arch, m: Mem, s: Symbol, target: nat): Mem
    requires Mapped(m, s.addr, s.size)
  {
    Store(Store(m, s.addr, JumpBytes(arch, target)), s.addr, Aligned(Load(m, s.addr, s.size)))
  }

  /** What a byte is once the function is put back, from what it was before the jump. */
  ghost predicate Back(arch: Arch, before: Mem, r: Mem, s: Symbol, target: nat, x: nat)
    requires x in before
  {
    && x in r
    && r[x] == if s.addr <= x < s.addr + s.size then before[x]
               else if s.addr <= x < s.addr + RoundUp8(s.size) then 0
               else if s.addr <= x < s.addr + 16 then JumpBytes(arch, target)[x - s.addr]
               else before[x]
  }

  /** For every size: the function's own bytes are back, then come zeroes up to a whole word,
      then what is left of the jump, and nothing else has changed. */
  lemma RecoverFrame(arch: Arch, m: Mem, s: Symbol, target: nat, x: nat)
    requires Mapped(m, s.addr, Span(s.size)) && x in m
    ensures Back(arch, m, Recovered(arch, m, s, target), s, target, x)
  {
    hide JumpBytes;
  }

  /** Recovering undoes injecting, whatever the memory and the target, exactly for symbols of
      at least sixteen bytes in whole words. */
  lemma ExactInverse(arch: Arch, s: Symbol)
    ensures s.size % 8 == 0 && s.size >= 16 <==>
            forall m: Mem, target: nat :: Mapped(m, s.addr, Span(s.size)) ==> Recovered(arch, m, s, target) == m
  {
    hide Recovered, Store;
    if s.size % 8 == 0 && s.size >= 16 {
      forall m: Mem, target: nat | Mapped(m, s.addr, Span(s.size)) ensures Recovered(arch, m, s, target) == m {
        WholeIsExact(arch, m, s, target);
      }
    } else {
      Damaged(arch, s);
      var m := Ones(s);
      assert Mapped(m, s.addr, Span(s.size)) && Recovered(arch, m, s, 0) != m;
    }
  }

  /** Putting back what was there undoes a write inside it. */
  lemma StoreOver(m: Mem, a: nat, b: seq<byte>, n: nat)
    requires Mapped(m, a, n) && |b| <= n
    ensures Store(Store(m, a, b), a, Load(m, a, n)) == m
  {
    hide Store, Load;
  }

  lemma WholeIsExact(arch: Arch, m: Mem, s: Symbol, target: nat)
    requires Mapped(m, s.addr, Span(s.size)) && s.size % 8 == 0 && s.size >= 16
    ensures Recovered(arch, m, s, target) == m
  {
    hide JumpBytes, Load, Aligned, Store, RoundUp8;
    AlignedWhole(Load(m, s.addr, s.size));
    StoreOver(m, s.addr, JumpBytes(arch, target), s.size);
  }

  /** A memory of ones around the symbol. */
  ghost function Ones(s: Symbol): (m: Mem)
    ensures forall x :: s.addr <= x < s.addr + Span(s.size) ==> x in m && m[x] == 1
  {
    Store(map[], s.addr, seq(Span(s.size), _ => 1))
  }

  /** The byte behind the symbol is zeroed, or the last byte of the jump stays. */
  lemma Damaged(arch: Arch, s: Symbol)
    requires s.size % 8 != 0 || s.size < 16
    ensures var m := Ones(s); Mapped(m, s.addr, Span(s.size)) && Recovered(arch, m, s, 0) != m
  {
    hide Recovered, JumpBytes, Store;
    var m := Ones(s);
    var x := if s.size % 8 != 0 then s.addr + s.size else s.addr + 15;
    RecoverFrame(arch, m, s, 0, x);
    LastJumpByte(arch);
    assert x in m && m[x] == 1;
  }

  lemma LastJumpByte(arch: Arch)
    ensures JumpBytes(arch, 0)[15] == 0
  {
    var b := LittleEndian(0, 8);
    assert b == [0, 0, 0, 0, 0, 0, 0, 0];
  }

  /** A fresh image and a function to replace. */
  ghost predicate Start(program: TracedProgram, image: FakeImage, s: Symbol, variables: map<string, nat>, names: seq<string>)
    reads program, image
  {
    && program.Valid() && program.arch == image.arch && (forall c: nat :: !program.fails(c))
    && image.fakeEntry.None? && image.originFuncCode.None? && image.maps == 0
    && s.size > 0 && Mapped(program.mem, s.addr, Span(s.size))
    && Enumerates(names, variables) && (forall k :: k in variables ==> variables[k] < TWO64)
  }

  /** The first attach of a fresh image: when it succeeds, where the image then is, and what
      holds of the process. */
  method FirstAttach(program: TracedProgram, image: FakeImage, s: Symbol, variables: map<string, nat>, names: seq<string>)
    returns (ok: bool)
    requires Start(program, image, s, variables, names) && Laid(image.arch, image.content, image.offset)
    modifies program, image
    ensures program.Valid() && (ok <==> old(image.Attaches(program, Found(s), variables)))
    ensures ok ==> image.fakeEntry.Some?
    ensures ok ==> var base := image.fakeEntry.value.start;
              && base == PlaceOf(program, |image.content|, old(program.regs), old(program.mem), old(program.calls) + 1)
              && Mapped(program.mem, s.addr, 16)
              && JumpTarget(image.arch, Load(program.mem, s.addr, 16)) == Some(base)
              && RoomFor(image.arch, image.content, image.offset, program.mem, base)
              && Recognised(image.arch, image.content, program.mem, base, |image.offset|)
              && VariablesHold(image.arch, program.mem, base, image.offset, variables)
  {
    ghost var orig := Load(program.mem, s.addr, s.size);
    FreshIsGood(program.arch, image.content, |image.offset|, program.mem, s, image.originAddress);
    hide Laid, Slotted, JumpBytes, JumpTarget, Enumerates, VariablesOnly, VariablesHold, Injected, OnlyAt, Recognised, HasPages;
    hide Span, Mapped, Load, PlaceOf, Free, Locatable, RoomFor;
    ok := image.AttachToProcess(program, Found(s), variables, names, s, orig);
    if !ok { return; }
    assert image.fakeEntry.value.start
           == PlaceOf(program, |image.content|, old(program.regs), old(program.mem), old(program.calls) + 1);
    Seen(image.arch, image.content, image.offset, program.mem, s, orig, image.fakeEntry.value,
         image.originFuncCode, image.originAddress);
    SymbolMapped(image.arch, image.content, |image.offset|, program.mem, s, orig, image.fakeEntry,
                 image.originFuncCode, image.originAddress);
    JumpThere(image.arch, image.content, |image.offset|, program.mem, s, orig, image.fakeEntry.value, image.originAddress);
    JumpReaches(image.arch, image.fakeEntry.value.start);
  }

  /** The first attach and the recovery after it, on the process itself: if both succeed, the
      function has its bytes back, and any other byte there was before is as it was, but for
      the padding zeroes and the rest of the jump. */
  method InjectAndRecover(program: TracedProgram, image: FakeImage, s: Symbol, variables: map<string, nat>, names: seq<string>)
    returns (ok: bool)
    requires program.Valid() && program.arch == image.arch && (forall c: nat :: !program.fails(c))
    requires image.fakeEntry.None? && image.originFuncCode.None? && image.maps == 0
    requires Laid(image.arch, image.content, image.offset)
    requires s.size > 0 && Mapped(program.mem, s.addr, Span(s.size))
    requires Enumerates(names, variables) && forall k :: k in variables ==> variables[k] < TWO64
    modifies program, image
    ensures ok <==> old(image.Attaches(program, Found(s), variables))
    ensures ok ==> image.originFuncCode.None? && image.fakeEntry.Some?
    ensures ok ==> forall x :: x in old(program.mem) ==>
              Back(image.arch, old(program.mem), program.mem, s, image.fakeEntry.value.start, x)
  {
    ghost var m, orig := program.mem, Load(program.mem, s.addr, s.size);
    hide Laid, JumpBytes, Enumerates, VariablesOnly, VariablesHold, Injected, HasPages;
    FreshIsGood(program.arch, image.content, |image.offset|, m, s, image.originAddress);
    ok := image.AttachToProcess(program, Found(s), variables, names, s, orig);
    if !ok { return; }
    ghost var jumped := program.mem;
    JumpThere(program.arch, image.content, |image.offset|, jumped, s, orig, image.fakeEntry.value, image.originAddress);
    ok := image.Recover(program, |variables|, s, orig);
    hide Back, OnlyAt, Store, Aligned;
    forall x | x in m ensures Back(image.arch, m, program.mem, s, image.fakeEntry.value.start, x) {
      PutBack(image.arch, m, jumped, s, orig, image.fakeEntry.value.start, x);
    }
  }

  lemma FreshIsGood(arch: Arch, content: seq<byte>, n: nat, m: Mem, s: Symbol, at: nat)
    requires s.size > 0 && Mapped(m, s.addr, Span(s.size))
    ensures Injected(arch, content, n, m, s, Load(m, s.addr, s.size), None, None, at)
  {}

  lemma JumpThere(arch: Arch, content: seq<byte>, n: nat, m: Mem, s: Symbol, orig: seq<byte>, e: Region, at: nat)
    requires Injected(arch, content, n, m, s, orig, Some(e), Some(orig), at)
    ensures Mapped(m, s.addr, 16) && Load(m, s.addr, 16) == JumpBytes(arch, e.start)
  {}

  lemma PutBack(arch: Arch, before: Mem, jumped: Mem, s: Symbol, orig: seq<byte>, target: nat, x: nat)
    requires Mapped(before, s.addr, Span(s.size)) && orig == Load(before, s.addr, s.size)
    requires OnlyAt(before, jumped, s.addr, 16) && x in before
    requires Mapped(jumped, s.addr, 16) && Load(jumped, s.addr, 16) == JumpBytes(arch, target)
    ensures Back(arch, before, Store(jumped, s.addr, Aligned(orig)), s, target, x)
  {
    hide JumpBytes, Aligned, Load;
    if s.addr <= x < s.addr + 16 {
      assert jumped[x] == Load(jumped, s.addr, 16)[x - s.addr];
    }
    if s.addr <= x < s.addr + RoundUp8(s.size) { AlignedAt(orig, x - s.addr); }
  }
}

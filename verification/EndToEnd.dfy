// From the command line to the clock the process reads.
module EndToEnd {
  import opened Int64
  import opened Memory
  import opened Linker
  import opened Tracee
  import opened Injection
  import opened FakeImages
  import opened Layouts
  import opened Sessions
  import Clock
  import Offset
  import DateText
  import DateParser

  const SEC_DELTA := "TV_SEC_DELTA"
  const NSEC_DELTA := "TV_NSEC_DELTA"
  const MASK := "CLOCK_IDS_MASK"

  /** The variables of clock_gettime, as Skew.Inject passes them. */
  function Variables(secDelta: int, nsecDelta: int, mask: nat): map<string, nat>
    requires InInt64(secDelta) && InInt64(nsecDelta)
  {
    map[MASK := mask, SEC_DELTA := ToUint64(secDelta), NSEC_DELTA := ToUint64(nsecDelta)]
  }

  /** The two deltas, as fake_time and fake_gettimeofday take them. */
  function Deltas(secDelta: int, nsecDelta: int): map<string, nat>
    requires InInt64(secDelta) && InInt64(nsecDelta)
  {
    map[SEC_DELTA := ToUint64(secDelta), NSEC_DELTA := ToUint64(nsecDelta)]
  }

  function WordAt(m: Mem, a: nat): (w: nat)
    requires Mapped(m, a, 4)
    ensures w < TWO32
  {
    FromBytesBound(Load(m, a, 4));
    Pow256Values();
    FromBytes(Load(m, a, 4))
  }

  /** What the mapped code gets when it runs the load at a site: the instruction is fetched
      from the process's memory, decoded, and its operand read there. */
  function Fetched(arch: Arch, m: Mem, base: nat, off: nat): DateText.Option<nat> {
    if !Mapped(m, base + off, 4) then DateText.None
    else
      match Variable(arch, m, LoadAddress(arch, base, off, WordAt(m, base + off)))
      case None => DateText.None
      case Some(v) => DateText.Some(v)
  }

  /** A relocation section as the linker expects it: sites in the text, a symbol each, and
      displacements that fit. */
  predicate Linkable(arch: Arch, text: seq<byte>, rels: seq<Rela>) {
    && |text| > 0 && Sites(text, rels) && Distinct(rels)
    && forall i :: 0 <= i < |rels| ==> Reaches(arch, Slot(arch, text, i), rels[i])
  }

  /** Every patched instruction of a mapped and set image yields its variable's value. */
  lemma SiteReads(arch: Arch, text: seq<byte>, rels: seq<Rela>, m: Mem, base: nat, variables: map<string, nat>, i: nat)
    requires Linkable(arch, text, rels) && i < |rels| && rels[i].sym in variables
    requires Linked(arch, text, rels).Some?
    requires var c, o := Linked(arch, text, rels).value, Offsets(arch, text, rels);
             && base + |c| <= TWO64
             && Recognised(arch, c, m, base, |o|) && VariablesHold(arch, m, base, o, variables)
    ensures Fetched(arch, m, base, rels[i].off) == DateText.Some(variables[rels[i].sym])
  {
    hide Linked, Offsets, LoadAddress, Reaches, Variable, Word, WordAt, Mapped, Recognised, Field, Relocated;
    var c, o := Linked(arch, text, rels).value, Offsets(arch, text, rels);
    var off := rels[i].off;
    LinkedLength(arch, text, rels);
    DistinctOffsets(arch, text, rels);
    LinkingReaches(arch, text, rels, base, i);
    SameWord(arch, c, m, base, |o|, off);
  }

  /** An instruction in the compared part is in the process as it is in the image. */
  lemma SameWord(arch: Arch, content: seq<byte>, m: Mem, base: nat, n: nat, off: nat)
    requires Recognised(arch, content, m, base, n) && off + 4 <= |content| - n * VarLength(arch)
    ensures Mapped(m, base + off, 4) && WordAt(m, base + off) == Word(content, off)
  {
    hide FromBytes;
    assert Load(m, base + off, 4) == content[off..off + 4];
  }

  /** Every entry of the relocation section that names a symbol: its instruction, in the image
      at base, yields what was set for that symbol. */
  ghost predicate AllFetch(arch: Arch, entries: seq<Entry>, syms: seq<string>, m: Mem, base: nat, variables: map<string, nat>) {
    forall k :: 0 <= k < |entries| && 1 <= entries[k].symNo <= |syms| ==>
      var name := syms[entries[k].symNo - 1];
      name in variables && Fetched(arch, m, base, entries[k].off) == DateText.Some(variables[name])
  }

  /** Linking: it succeeds, and the image has a slot for every variable. */
  method LinkImage(arch: Arch, text: seq<byte>, entries: seq<Entry>, syms: seq<string>, ghost variables: map<string, nat>)
    returns (image: FakeImage)
    requires Linkable(arch, text, Resolved(entries, syms, |entries|))
    requires forall k :: k in variables <==> Relocated(Resolved(entries, syms, |entries|), k)
    ensures fresh(image) && image.arch == arch
    ensures image.fakeEntry.None? && image.originFuncCode.None? && image.maps == 0
    ensures var rels := Resolved(entries, syms, |entries|);
            && Linked(arch, text, rels) == Linker.Some(image.content) && image.offset == Offsets(arch, text, rels)
            && |image.content| == Slot(arch, text, |rels|)
    ensures Laid(arch, image.content, image.offset)
    ensures |variables| == |image.offset| && forall k :: k in variables ==> k in image.offset
  {
    ghost var rels := Resolved(entries, syms, |entries|);
    LinkableText(arch, text, rels);
    hide Linked, Offsets, Laid, Linkable, Relocated, Sites, Distinct;
    var linker := new Image(arch, text);
    LinkableLinks(arch, text, rels, |entries|, entries, syms);
    var ok, _ := linker.Load(entries, syms);
    LinkedLength(arch, text, rels);
    NamesMatch(arch, text, rels, variables);
    DistinctLays(arch, text, rels);
    image := new FakeImage(arch, linker.content, linker.offset);
  }

  /** Linking and the first attach: the function jumps to the image, wherever the kernel put
      it, and the image's instructions find the variables. */
  method LinkAndAttach(program: TracedProgram, text: seq<byte>, entries: seq<Entry>, syms: seq<string>, s: Symbol,
                       variables: map<string, nat>, names: seq<string>) returns (ok: bool, base: nat)
    requires program.Valid() && (forall c: nat :: !program.fails(c))
    requires Linkable(program.arch, text, Resolved(entries, syms, |entries|))
    requires forall k :: k in variables <==> Relocated(Resolved(entries, syms, |entries|), k)
    requires forall k :: k in variables ==> variables[k] < TWO64
    requires s.size > 0 && Mapped(program.mem, s.addr, Span(s.size))
    requires Enumerates(names, variables)
    modifies program
    ensures var size := Slot(program.arch, text, |Resolved(entries, syms, |entries|)|);
            && (ok <==> HasPages(program, size, old(program.regs), old(program.mem), old(program.calls) + 1))
            && (ok ==> base == PlaceOf(program, size, old(program.regs), old(program.mem), old(program.calls) + 1))
    ensures ok ==>
              && Mapped(program.mem, s.addr, 16)
              && JumpTarget(program.arch, Load(program.mem, s.addr, 16)) == Some(base)
              && AllFetch(program.arch, entries, syms, program.mem, base, variables)
  {
    ghost var rels := Resolved(entries, syms, |entries|);
    ghost var size := Slot(program.arch, text, |rels|);
    hide Linked, Offsets, Laid, Enumerates, VariablesHold, JumpTarget, Fetched, Recognised, Linkable, Span, Relocated;
    hide Mapped, AllFetch, Load, HasPages, PlaceOf, RoomFor;
    base := 0;
    ghost var r0, m0, c0 := program.regs, program.mem, program.calls + 1;
    ghost var place, room := PlaceOf(program, size, r0, m0, c0), HasPages(program, size, r0, m0, c0);
    var image := LinkImage(program.arch, text, entries, syms, variables);
    assert program.regs == r0 && program.mem == m0 && program.calls + 1 == c0 && |image.content| == size;
    ok := FirstAttach(program, image, s, variables, names);
    assert ok <==> room;
    if !ok { return; }
    base := image.fakeEntry.value.start;
    assert base == place;
    AllSitesRead(program.arch, text, entries, syms, program.mem, base, variables);
  }

  /** Every prefix of a linkable section links. */
  lemma LinkableLinks(arch: Arch, text: seq<byte>, rels: seq<Rela>, n: nat, entries: seq<Entry>, syms: seq<string>)
    requires Linkable(arch, text, rels) && n == |entries| && rels == Resolved(entries, syms, n)
    ensures forall k :: 0 <= k <= n ==> Linked(arch, text, Resolved(entries, syms, k)).Some?
  {
    hide Linked, LinkedTo;
    forall k | 0 <= k <= n ensures Linked(arch, text, Resolved(entries, syms, k)).Some? {
      ResolvedPrefix(entries, syms, k, n);
      SitesPrefix(text, rels, |Resolved(entries, syms, k)|);
      LinkingFrame(arch, text, Resolved(entries, syms, k));
    }
  }

  lemma {:induction false} ResolvedPrefix(entries: seq<Entry>, syms: seq<string>, k: nat, n: nat)
    requires k <= n <= |entries|
    ensures Resolved(entries, syms, k) <= Resolved(entries, syms, n)
  {
    if k < n { ResolvedPrefix(entries, syms, k, n - 1); }
  }

  lemma SitesPrefix(text: seq<byte>, rels: seq<Rela>, n: nat)
    requires Sites(text, rels) && n <= |rels|
    ensures Sites(text, rels[..n])
  {}

  /** Variables with the names of the relocations are as many as the table has. */
  lemma NamesMatch(arch: Arch, text: seq<byte>, rels: seq<Rela>, variables: map<string, nat>)
    requires forall k :: k in variables <==> Relocated(rels, k)
    ensures |variables| == |Offsets(arch, text, rels)|
    ensures forall k :: k in variables ==> k in Offsets(arch, text, rels)
  {
    hide Offsets, Relocated;
    OffsetsCount(arch, text, rels);
    assert variables.Keys == Syms(rels);
  }

  lemma LinkableText(arch: Arch, text: seq<byte>, rels: seq<Rela>)
    requires Linkable(arch, text, rels)
    ensures |text| > 0 && Distinct(rels) && Sites(text, rels)
  {}

  lemma AllSitesRead(arch: Arch, text: seq<byte>, entries: seq<Entry>, syms: seq<string>, m: Mem, base: nat,
                     variables: map<string, nat>)
    requires var rels := Resolved(entries, syms, |entries|);
             && Linkable(arch, text, rels) && Linked(arch, text, rels).Some?
             && (forall k :: k in variables <==> Relocated(rels, k))
             && RoomFor(arch, Linked(arch, text, rels).value, Offsets(arch, text, rels), m, base)
             && Recognised(arch, Linked(arch, text, rels).value, m, base, |Offsets(arch, text, rels)|)
             && VariablesHold(arch, m, base, Offsets(arch, text, rels), variables)
    ensures AllFetch(arch, entries, syms, m, base, variables)
  {
    hide Linkable, Linked, Offsets, Laid, Fetched, Recognised, VariablesHold, Resolved;
    var rels := Resolved(entries, syms, |entries|);
    var named := ResolvedAre(entries, syms, |entries|);
    forall k: nat | k < |entries| && 1 <= entries[k].symNo <= |syms|
      ensures var name := syms[entries[k].symNo - 1];
              name in variables && Fetched(arch, m, base, entries[k].off) == DateText.Some(variables[name]) {
      assert k in named;
      var i :| 0 <= i < |named| && named[i] == k;
      assert Relocated(rels, rels[i].sym);
      SiteReads(arch, text, rels, m, base, variables, i);
    }
  }

  /** The whole way.  A signed decimal offset is parsed, the clock names encoded, the image
      linked and attached for the first time; then the process asks for a clock, and the code
      mapped into it fetches its three variables and shifts what the kernel answered.  On a
      clock that was named the reading moves by exactly the number times the unit; on any other
      of the ten it is the kernel's. */
  method ShiftedClock(program: TracedProgram, text: seq<byte>, entries: seq<Entry>, syms: seq<string>, s: Symbol,
                      sign: char, digits: string, unit: string, ids: seq<string>, names: seq<string>,
                      lib: DateParser.Lib, clkId: nat, tp: Clock.Timespec) returns (attached: bool, defined: bool)
    requires program.Valid() && (forall c: nat :: !program.fails(c))
    requires Linkable(program.arch, text, Resolved(entries, syms, |entries|))
    requires forall k :: k in Variables(0, 0, 0) <==> Relocated(Resolved(entries, syms, |entries|), k)
    requires s.size > 0 && Mapped(program.mem, s.addr, Span(s.size))
    requires (sign == '+' || sign == '-') && digits != "" && DateParser.AllDigits(digits) && Offset.IsUnit(unit)
    requires InInt64(Offset.Signed(sign, digits) * Offset.UnitNanos(unit))
    requires forall i :: 0 <= i < |ids| ==> ids[i] in Offset.CLOCKS
    requires Enumerates(names, Variables(0, 0, 0))
    requires InInt64(tp.sec) && 0 <= tp.nsec < Clock.BILLION && clkId < 10
    modifies program, tp
    ensures attached <==> HasPages(program, Slot(program.arch, text, |Resolved(entries, syms, |entries|)|),
                                   old(program.regs), old(program.mem), old(program.calls) + 1)
    ensures var nanos := Offset.Signed(sign, digits) * Offset.UnitNanos(unit);
            attached ==>
              && (defined <==> (Offset.CLOCKS[clkId] in ids ==> Clock.ClockDefined(0, nanos, old(tp.sec), old(tp.nsec))))
              && (defined && Offset.CLOCKS[clkId] in ids ==>
                    Clock.Total(tp.sec, tp.nsec) == Clock.Total(old(tp.sec), old(tp.nsec)) + nanos)
              && (Offset.CLOCKS[clkId] !in ids ==> tp.sec == old(tp.sec) && tp.nsec == old(tp.nsec))
  {
    hide Linkable, Fetched, AllFetch, Relocated, Span, Offset.CalculateOffset, Clock.ClockDefined;
    hide DateParser.AllDigits, DateParser.Decimal, Offset.UnitNanos, Offset.Signed, Resolved, Bit, Enumerates, JumpTarget, Load, Mapped, HasPages, PlaceOf;
    attached, defined := false, false;
    ghost var nanos := Offset.Signed(sign, digits) * Offset.UnitNanos(unit);
    Offset.OffsetIsExact(sign, digits, unit, lib);
    var answer := Offset.CalculateOffset([sign] + digits + unit, lib);
    var mask := MaskOf(ids);
    var rels := Resolved(entries, syms, |entries|);
    var variables := Variables(0, answer.nanos, mask);
    SameNames(names, answer.nanos, mask);
    var base;
    attached, base := LinkAndAttach(program, text, entries, syms, s, variables, names);
    assert attached <==> HasPages(program, Slot(program.arch, text, |rels|), old(program.regs), old(program.mem),
                                  old(program.calls) + 1);
    if !attached { return; }
    var fetchedMask := FetchedAt(program, entries, syms, base, "CLOCK_IDS_MASK", variables);
    var fetchedSec := FetchedAt(program, entries, syms, base, "TV_SEC_DELTA", variables);
    var fetchedNsec := FetchedAt(program, entries, syms, base, "TV_NSEC_DELTA", variables);
    defined := Clock.FakeClockGettime(FromUint64(fetchedSec), FromUint64(fetchedNsec), fetchedMask, clkId, tp);
  }

  /** The same for time.  Asked before and after, it differs by the whole number of seconds
      nearest to the number times the unit. */
  method ShiftedTime(program: TracedProgram, text: seq<byte>, entries: seq<Entry>, syms: seq<string>, s: Symbol,
                     sign: char, digits: string, unit: string, names: seq<string>, lib: DateParser.Lib,
                     original: int, t: Clock.Time?) returns (attached: bool, defined: bool, now: int)
    requires program.Valid() && (forall c: nat :: !program.fails(c))
    requires Linkable(program.arch, text, Resolved(entries, syms, |entries|))
    requires forall k :: k in Deltas(0, 0) <==> Relocated(Resolved(entries, syms, |entries|), k)
    requires s.size > 0 && Mapped(program.mem, s.addr, Span(s.size))
    requires (sign == '+' || sign == '-') && digits != "" && DateParser.AllDigits(digits) && Offset.IsUnit(unit)
    requires InInt64(Offset.Signed(sign, digits) * Offset.UnitNanos(unit))
    requires Enumerates(names, Deltas(0, 0)) && InInt64(original)
    modifies program, t
    ensures attached <==> HasPages(program, Slot(program.arch, text, |Resolved(entries, syms, |entries|)|),
                                   old(program.regs), old(program.mem), old(program.calls) + 1)
    ensures var nanos := Offset.Signed(sign, digits) * Offset.UnitNanos(unit);
            attached ==> (defined <==> Clock.TimeDefined(0, nanos, original))
    ensures var nanos := Offset.Signed(sign, digits) * Offset.UnitNanos(unit);
            attached && defined ==>
              && -500_000_000 < (now - original) * 1_000_000_000 - nanos <= 500_000_000
              && (t != null ==> t.value == now)
  {
    hide Linkable, Fetched, AllFetch, Relocated, Span, Offset.CalculateOffset, DateParser.AllDigits, DateParser.Decimal;
    hide Offset.UnitNanos, Resolved, Enumerates, JumpTarget, Load, Mapped, HasPages, PlaceOf;
    attached, defined, now := false, false, original;
    Offset.OffsetIsExact(sign, digits, unit, lib);
    var answer := Offset.CalculateOffset([sign] + digits + unit, lib);
    SameTwo(names, answer.nanos);
    var base;
    attached, base := LinkAndAttach(program, text, entries, syms, s, Deltas(0, answer.nanos), names);
    if !attached { return; }
    var fetchedSec := FetchedAt(program, entries, syms, base, "TV_SEC_DELTA", Deltas(0, answer.nanos));
    var fetchedNsec := FetchedAt(program, entries, syms, base, "TV_NSEC_DELTA", Deltas(0, answer.nanos));
    defined, now := Clock.FakeTime(FromUint64(fetchedSec), FromUint64(fetchedNsec), original, t);
  }

  /** And for gettimeofday: the reading moves by the number times the unit, to the nearest
      microsecond. */
  method ShiftedTimeOfDay(program: TracedProgram, text: seq<byte>, entries: seq<Entry>, syms: seq<string>, s: Symbol,
                          sign: char, digits: string, unit: string, names: seq<string>, lib: DateParser.Lib,
                          tv: Clock.Timeval) returns (attached: bool, defined: bool)
    requires program.Valid() && (forall c: nat :: !program.fails(c))
    requires Linkable(program.arch, text, Resolved(entries, syms, |entries|))
    requires forall k :: k in Deltas(0, 0) <==> Relocated(Resolved(entries, syms, |entries|), k)
    requires s.size > 0 && Mapped(program.mem, s.addr, Span(s.size))
    requires (sign == '+' || sign == '-') && digits != "" && DateParser.AllDigits(digits) && Offset.IsUnit(unit)
    requires InInt64(Offset.Signed(sign, digits) * Offset.UnitNanos(unit))
    requires Enumerates(names, Deltas(0, 0))
    requires InInt64(tv.sec) && 0 <= tv.usec < 1_000_000
    modifies program, tv
    ensures attached <==> HasPages(program, Slot(program.arch, text, |Resolved(entries, syms, |entries|)|),
                                   old(program.regs), old(program.mem), old(program.calls) + 1)
    ensures var nanos := Offset.Signed(sign, digits) * Offset.UnitNanos(unit);
            attached ==> (defined <==> Clock.TimeOfDayDefined(0, nanos, old(tv.sec), old(tv.usec)))
    ensures var nanos := Offset.Signed(sign, digits) * Offset.UnitNanos(unit);
            attached && defined ==>
              -500 <= ((tv.sec - old(tv.sec)) * 1_000_000 + tv.usec - old(tv.usec)) * 1000 - nanos <= 500
  {
    hide Linkable, Fetched, AllFetch, Relocated, Span, Offset.CalculateOffset, DateParser.AllDigits, DateParser.Decimal;
    hide Offset.UnitNanos, Resolved, Enumerates, JumpTarget, Load, Mapped, HasPages, PlaceOf, Clock.TimeOfDayDefined;
    hide Clock.MicroShift;
    attached, defined := false, false;
    Offset.OffsetIsExact(sign, digits, unit, lib);
    var answer := Offset.CalculateOffset([sign] + digits + unit, lib);
    SameTwo(names, answer.nanos);
    var base;
    attached, base := LinkAndAttach(program, text, entries, syms, s, Deltas(0, answer.nanos), names);
    if !attached { return; }
    var fetchedSec := FetchedAt(program, entries, syms, base, "TV_SEC_DELTA", Deltas(0, answer.nanos));
    var fetchedNsec := FetchedAt(program, entries, syms, base, "TV_NSEC_DELTA", Deltas(0, answer.nanos));
    defined := Clock.FakeGettimeofday(FromUint64(fetchedSec), FromUint64(fetchedNsec), tv);
  }

  lemma SameTwo(names: seq<string>, nanos: int)
    requires InInt64(nanos) && Enumerates(names, Deltas(0, 0))
    ensures Enumerates(names, Deltas(0, nanos))
    ensures Deltas(0, nanos).Keys == Deltas(0, 0).Keys
  {}

  /** The mask of clock names that are all known. */
  method MaskOf(ids: seq<string>) returns (mask: nat)
    requires forall i :: 0 <= i < |ids| ==> ids[i] in Offset.CLOCKS
    ensures mask < TWO64 && forall k: nat :: Bit(mask, k) <==> k < 10 && Offset.CLOCKS[k] in ids
  {
    var encoded := Offset.EncodeClkIds(ids);
    mask := encoded.value;
  }

  lemma SameNames(names: seq<string>, nanos: int, mask: nat)
    requires InInt64(nanos) && Enumerates(names, Variables(0, 0, 0))
    ensures Enumerates(names, Variables(0, nanos, mask))
    ensures Variables(0, nanos, mask).Keys == Variables(0, 0, 0).Keys
  {}

  /** What the mapped code fetches at an entry with that symbol. */
  method FetchedAt(program: TracedProgram, entries: seq<Entry>, syms: seq<string>, base: nat, name: string,
                   ghost variables: map<string, nat>) returns (v: nat)
    requires AllFetch(program.arch, entries, syms, program.mem, base, variables)
    requires Relocated(Resolved(entries, syms, |entries|), name)
    ensures name in variables && v == variables[name]
  {
    hide Resolved, Fetched;
    ghost var named := ResolvedAre(entries, syms, |entries|);
    assert exists k: nat :: k in named && syms[entries[k].symNo - 1] == name;
    var i: nat :| i < |entries| && 1 <= entries[i].symNo <= |syms| && syms[entries[i].symNo - 1] == name;
    v := Fetched(program.arch, program.mem, base, entries[i].off).value;
  }
}

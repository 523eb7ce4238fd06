// Runs that come out otherwise than one might expect.
module Runs {
  import opened Int64
  import opened Memory
  import opened Linker
  import opened Tracee
  import opened Injection
  import opened FakeImages
  import opened Rooms
  import opened Layouts
  import opened Sessions
  import EndToEnd

  /** Attach, recover, attach.  If the first succeeds, so do the others; yet in the end the
      function has its original bytes, although the image is there and its variables are set. */
  method AttachAgain(program: TracedProgram, image: FakeImage, s: Symbol, variables: map<string, nat>, names: seq<string>)
    returns (first: bool, recovered: bool, second: bool)
    requires Start(program, image, s, variables, names) && Laid(image.arch, image.content, image.offset)
    modifies program, image
    ensures first <==> old(image.Attaches(program, Found(s), variables))
    ensures first ==> recovered && second && image.originFuncCode.None? && image.fakeEntry.Some?
    ensures first ==>
              && Mapped(program.mem, s.addr, s.size)
              && Load(program.mem, s.addr, s.size) == old(Load(program.mem, s.addr, s.size))
              && VariablesHold(image.arch, program.mem, image.fakeEntry.value.start, image.offset, variables)
  {
    ghost var orig := Load(program.mem, s.addr, s.size);
    FreshIsGood(program.arch, image.content, |image.offset|, program.mem, s, image.originAddress);
    hide Laid, JumpBytes, Enumerates, VariablesOnly, VariablesHold, Injected, OnlyAt, Recognised, HasPages;
    recovered, second := false, false;
    first := image.AttachToProcess(program, Found(s), variables, names, s, orig);
    if !first { return; }
    recovered := image.Recover(program, |variables|, s, orig);
    second := image.AttachToProcess(program, Found(s), variables, names, s, orig);
    SymbolMapped(image.arch, image.content, |image.offset|, program.mem, s, orig, image.fakeEntry,
                 image.originFuncCode, image.originAddress);
    OriginalThere(image.arch, image.content, |image.offset|, program.mem, s, orig, image.fakeEntry, image.originAddress);
  }

  lemma OriginalThere(arch: Arch, content: seq<byte>, n: nat, m: Mem, s: Symbol, orig: seq<byte>, entry: Option<Region>, at: nat)
    requires Injected(arch, content, n, m, s, orig, entry, None, at)
    ensures Mapped(m, s.addr, s.size) && Load(m, s.addr, s.size) == orig
  {}

  /** Likewise when the first attach maps the image but does not find the function: it fails,
      and the next one sets the variables and succeeds without patching anything. */
  method AttachAfterLookup(program: TracedProgram, image: FakeImage, s: Symbol, variables: map<string, nat>, names: seq<string>)
    returns (first: bool, second: bool, ghost mid: Moment)
    requires Start(program, image, s, variables, names) && Laid(image.arch, image.content, image.offset)
    requires image.Attaches(program, Found(s), variables)
    modifies program, image
    ensures !first && mid.maps == 1 && mid.entry.Some? && mid.code.None?
    ensures Mapped(mid.mem, s.addr, s.size) && Load(mid.mem, s.addr, s.size) == old(Load(program.mem, s.addr, s.size))
    ensures second && image.fakeEntry == mid.entry && image.maps == 1 && image.originFuncCode.None?
    ensures Mapped(program.mem, s.addr, s.size) && Load(program.mem, s.addr, s.size) == old(Load(program.mem, s.addr, s.size))
    ensures VariablesHold(image.arch, program.mem, image.fakeEntry.value.start, image.offset, variables)
  {
    ghost var orig := Load(program.mem, s.addr, s.size);
    hide Laid, Slotted, JumpBytes, Enumerates, VariablesOnly, VariablesHold, Injected, OnlyAt, Recognised, HasPages;
    hide Span, Mapped, Load, PlaceOf, Free, Locatable, RoomFor, Replaces, Grows;
    first := LookupFails(program, image, s, orig, variables, names);
    mid := Now(program, image);
    OriginalThere(image.arch, image.content, |image.offset|, program.mem, s, orig, image.fakeEntry, image.originAddress);
    second := image.AttachToProcess(program, Found(s), variables, names, s, orig);
    assert second;
    OriginalThere(image.arch, image.content, |image.offset|, program.mem, s, orig, image.fakeEntry, image.originAddress);
  }

  method LookupFails(program: TracedProgram, image: FakeImage, ghost s: Symbol, ghost orig: seq<byte>,
                     variables: map<string, nat>, names: seq<string>) returns (ok: bool)
    requires Start(program, image, s, variables, names) && Laid(image.arch, image.content, image.offset)
    requires image.Attaches(program, Found(s), variables) && orig == Load(program.mem, s.addr, s.size)
    modifies program, image
    ensures !ok && program.Valid() && image.Good(program.mem, s, orig) && image.Shaped()
    ensures image.fakeEntry.Some? && image.originFuncCode.None? && image.maps == 1
  {
    BlindStart(program, image, s, orig, variables, names);
    hide Laid, Slotted, Enumerates, Injected, Recognised, HasPages, Span, Mapped, Load, Succeeds, FakeImage.Countable, FakeImage.Unseen, FakeImage.Good;
    ok := AttachBlind(program, image, s, orig, variables, names);
  }

  lemma BlindStart(program: TracedProgram, image: FakeImage, s: Symbol, orig: seq<byte>, variables: map<string, nat>, names: seq<string>)
    requires Start(program, image, s, variables, names) && Laid(image.arch, image.content, image.offset)
    requires image.Attaches(program, Found(s), variables) && orig == Load(program.mem, s.addr, s.size)
    ensures image.Good(program.mem, s, orig) && image.Countable(program.mem, |image.offset|) && image.Unseen(program.mem, |image.offset|)
    ensures |variables| == |image.offset| && HasPages(program, |image.content|, program.regs, program.mem, program.calls + 1)
    ensures !Succeeds(program, image.content, image.offset, None, program.regs, program.mem, program.calls, NoSymbol, variables)
  {
    hide Laid, Slotted, Enumerates, Injected, Recognised, HasPages, Span, Load, Succeeds, Mapped, TracedProgram.Rules;
    StartIsGood(program, image, s, orig, variables, names);
    NotEmpty(image.arch, image.content, image.offset);
    FitsCount(image.arch, image.content, image.offset);
    NeedsSymbol(program, image.content, image.offset, program.regs, program.mem, program.calls, s, variables);
  }

  lemma StartIsGood(program: TracedProgram, image: FakeImage, s: Symbol, orig: seq<byte>, variables: map<string, nat>, names: seq<string>)
    requires Start(program, image, s, variables, names) && Laid(image.arch, image.content, image.offset)
    requires orig == Load(program.mem, s.addr, s.size)
    ensures image.Good(program.mem, s, orig)
  {
    hide Laid, Enumerates, Injected, Load, TracedProgram.Rules;
    FreshIsGood(program.arch, image.content, |image.offset|, program.mem, s, image.originAddress);
  }

  /** An attach that maps the image and then lacks the symbol. */
  method AttachBlind(program: TracedProgram, image: FakeImage, ghost s: Symbol, ghost orig: seq<byte>,
                     variables: map<string, nat>, names: seq<string>) returns (ok: bool)
    requires program.Valid() && program.arch == image.arch && (forall c: nat :: !program.fails(c))
    requires image.Good(program.mem, s, orig) && image.fakeEntry.None? && image.originFuncCode.None?
    requires image.Countable(program.mem, |image.offset|) && image.Unseen(program.mem, |image.offset|)
    requires Enumerates(names, variables) && (forall k :: k in variables ==> variables[k] < TWO64) && |variables| == |image.offset|
    requires HasPages(program, |image.content|, program.regs, program.mem, program.calls + 1)
    requires !Succeeds(program, image.content, image.offset, None, program.regs, program.mem, program.calls, NoSymbol, variables)
    modifies program, image
    ensures !ok && program.Valid() && image.Good(program.mem, s, orig) && image.Shaped()
    ensures image.fakeEntry.Some? && image.originFuncCode.None? && image.maps == 1
  {
    hide Laid, Slotted, JumpBytes, Enumerates, VariablesOnly, VariablesHold, Injected, OnlyAt, Recognised, HasPages;
    hide Span, Mapped, Load, PlaceOf, Free, Locatable, RoomFor, Succeeds, FakeImage.Countable, FakeImage.Unseen;
    hide Replaces, Grows;
    ok := image.AttachToProcess(program, NoSymbol, variables, names, s, orig);
    assert image.maps == 1;
  }

  lemma NeedsSymbol(program: TracedProgram, content: seq<byte>, offset: map<string, nat>, r: Regs, m: Mem, calls: nat,
                    s: Symbol, variables: map<string, nat>)
    requires Succeeds(program, content, offset, None, r, m, calls, Found(s), variables)
    ensures !Succeeds(program, content, offset, None, r, m, calls, NoSymbol, variables)
    ensures |variables| == |offset| && HasPages(program, |content|, r, m, calls + 1)
  {
    hide HasPages;
  }

  lemma FitsCount(arch: Arch, content: seq<byte>, offset: map<string, nat>)
    requires Laid(arch, content, offset)
    ensures |offset| * VarLength(arch) <= |content|
  {}

  /** A linked image in which one of the last relocations repeats a symbol, every variable to
      be set to something but zero. */
  ghost predicate Repeating(image: FakeImage, text: seq<byte>, rels: seq<Rela>, variables: map<string, nat>) {
    && |text| > 0 && Sites(text, rels) && !Distinct(LastRels(rels))
    && Linked(image.arch, text, rels) == Linker.Some(image.content) && image.offset == Offsets(image.arch, text, rels)
    && forall k :: k in variables ==> 0 < variables[k] < TWO64
  }

  /** The function jumps to an image that is mapped but not recognised; as many bytes are saved
      as the function has. */
  ghost predicate Hidden(arch: Arch, content: seq<byte>, n: nat, s: Symbol, a: Moment) {
    && a.entry.Some? && |content| > 0 && Mapped(a.mem, a.entry.value.start, |content|)
    && n * VarLength(arch) <= |content| && !Recognised(arch, content, a.mem, a.entry.value.start, n)
    && Mapped(a.mem, s.addr, Span(s.size)) && Span(s.size) >= 16
    && JumpTarget(arch, Load(a.mem, s.addr, 16)) == Some(a.entry.value.start)
    && a.code.Some? && |a.code.value| == s.size && a.at == s.addr
  }

  /** Attaching when no image is recognised. */
  method AttachHidden(program: TracedProgram, image: FakeImage, text: seq<byte>, rels: seq<Rela>, s: Symbol,
                      variables: map<string, nat>, names: seq<string>) returns (ok: bool)
    requires program.Valid() && program.arch == image.arch && image.Shaped() && (forall c: nat :: !program.fails(c))
    requires Repeating(image, text, rels, variables) && Enumerates(names, variables)
    requires Locatable(program.mem, Found(s))
    requires image.fakeEntry.None? || Hidden(image.arch, image.content, |image.offset|, s, Now(program, image))
    modifies program, image
    ensures program.Valid() && image.Shaped() && program.regs == old(program.regs)
    ensures var before := old(program.calls) + if old(image.fakeEntry).Some? then 1 else 0;
            ok <==> Succeeds(program, image.content, image.offset, None, old(program.regs), old(program.mem), before, Found(s), variables)
    ensures ok ==> && Hidden(image.arch, image.content, |image.offset|, s, Now(program, image))
                   && Replaces(image.arch, old(program.mem), program.mem, s, image.fakeEntry.value, image.originFuncCode)
                   && image.maps == old(image.maps) + 1 && Locatable(program.mem, Found(s))
                   && Grows(old(program.mem), program.mem, image.fakeEntry.value.start, Larger(|image.content|, program.pageSize))
  {
    hide JumpBytes, Enumerates, VariablesOnly, VariablesHold, Injected, OnlyAt, Recognised, HasPages, Linked, Offsets, Distinct;
    hide Slotted, Laid, Span, RoomFor, LastRels, Sites, Mapped, PlaceOf, Free, Replaces, Grows, Larger, WholePages, Load, JumpTarget;
    LinkedIsSlotted(image.arch, text, rels);
    OffsetsFit(image.arch, text, rels);
    NotEmpty(image.arch, image.content, image.offset);
    ghost var m := program.mem;
    assert image.Unknown(m) && image.Countable(m, |image.offset|) && image.Unseen(m, |image.offset|);
    ok := image.AttachToProcess(program, Found(s), variables, names, s, []);
    if !ok { return; }
    assert image.maps == old(image.maps) + 1;
    RoomIsMapped(image.arch, image.content, image.offset, program.mem, image.fakeEntry.value.start);
    HiddenOnceSet(image.arch, text, rels, program.mem, image.fakeEntry.value.start, variables);
    JumpsThere(image.arch, m, program.mem, s, image.fakeEntry.value, image.originFuncCode);
  }

  lemma JumpsThere(arch: Arch, m: Mem, r: Mem, s: Symbol, e: Region, code: Option<seq<byte>>)
    requires Replaces(arch, m, r, s, e, code) && Locatable(m, Found(s)) && e.start < TWO64
    ensures Mapped(r, s.addr, Span(s.size)) && Span(s.size) >= 16 && code.Some? && |code.value| == s.size
    ensures JumpTarget(arch, Load(r, s.addr, 16)) == Some(e.start)
    ensures Locatable(r, Found(s))
  {
    hide JumpBytes, JumpTarget, Load;
    JumpReaches(arch, e.start);
  }

  /** When the first attach succeeds the image is not recognised any more, and the second maps
      another one exactly when the kernel has room.  Two images are mapped then, and the bytes
      saved are those of the first jump. */
  method TwoMappings(program: TracedProgram, image: FakeImage, text: seq<byte>, rels: seq<Rela>, s: Symbol,
                     variables: map<string, nat>, names: seq<string>) returns (first: bool, second: bool, ghost mid: Moment)
    requires Start(program, image, s, variables, names) && Repeating(image, text, rels, variables)
    modifies program, image
    ensures program.Valid() && image.Shaped()
    ensures first <==> old(image.Attaches(program, Found(s), variables))
    ensures first ==> Hidden(image.arch, image.content, |image.offset|, s, mid) && mid.maps == 1
    ensures first ==> mid.code == Some(old(Load(program.mem, s.addr, s.size)))
    ensures first ==> (second <==> HasPages(program, |image.content|, mid.regs, mid.mem, mid.calls + 2))
    ensures second ==>
              && first && image.maps == 2
              && Hidden(image.arch, image.content, |image.offset|, s, Now(program, image))
              && Free(mid.mem, image.fakeEntry.value)
              && Mapped(mid.mem, s.addr, s.size) && image.originFuncCode == Some(Load(mid.mem, s.addr, s.size))
    ensures first && old(RoomLeft(program, program.regs, program.mem, Larger(|image.content|, program.pageSize), 2)) ==> second
  {
    hide Repeating, Enumerates, HasPages, Recognised, Span, Mapped, PlaceOf, Free, Grows, RoomLeft, Larger, Load, OnlyAt, JumpTarget;
    second := false;
    ghost var n, m, r := Larger(|image.content|, program.pageSize), program.mem, program.regs;
    ghost var roomy := RoomLeft(program, r, m, n, 2);
    first := AttachHidden(program, image, text, rels, s, variables, names);
    mid := Now(program, image);
    if !first { return; }
    if roomy {
      RoomIsPages(program, r, m, |image.content|, 0, n, 2);
      assert Grows(m, mid.mem, mid.entry.value.start, Larger(|image.content|, program.pageSize));
      assert RoomLeft(program, r, mid.mem, n, 2 - 1);
      RoomIsPages(program, r, mid.mem, |image.content|, mid.calls + 2, n, 1);
    }
    second := AttachHidden(program, image, text, rels, s, variables, names);
  }

  /** After that no recovery, with whatever number of variables, gives the function its own
      bytes: either nothing is written, or the first jump is back. */
  method LostFunction(program: TracedProgram, image: FakeImage, text: seq<byte>, rels: seq<Rela>, s: Symbol,
                      variables: map<string, nat>, names: seq<string>, varNum: nat)
    returns (first: bool, second: bool, recovered: bool, ghost mid: Moment)
    requires Start(program, image, s, variables, names) && Repeating(image, text, rels, variables)
    modifies program, image
    ensures first <==> old(image.Attaches(program, Found(s), variables))
    ensures first ==> (second <==> HasPages(program, |image.content|, mid.regs, mid.mem, mid.calls + 2))
    ensures second ==> first && mid.entry.Some? && Mapped(program.mem, s.addr, 16)
    ensures second ==> (recovered <==> varNum * VarLength(image.arch) <= |image.content|)
    ensures second && varNum == |image.offset| ==> recovered && image.originFuncCode.Some?
    ensures second && image.originFuncCode.Some? ==>
              image.fakeEntry.Some? && JumpTarget(image.arch, Load(program.mem, s.addr, 16)) == Some(image.fakeEntry.value.start)
    ensures second && image.originFuncCode.None? && s.size >= 16 ==>
              JumpTarget(image.arch, Load(program.mem, s.addr, 16)) == Some(mid.entry.value.start)
  {
    hide Repeating, Enumerates, HasPages, Recognised, Free, RoomLeft, Larger, Load, JumpTarget, Span, Aligned, Store;
    recovered := false;
    first, second, mid := TwoMappings(program, image, text, rels, s, variables, names);
    if !second { return; }
    ghost var late := Now(program, image);
    assert Hidden(image.arch, image.content, |image.offset|, s, late);
    SpanCovers(late.mem, s);
    SpanCovers(mid.mem, s);
    recovered := image.Recover(program, varNum, s, []);
    if image.originFuncCode.None? { FirstJumpBack(image.arch, mid.mem, late.mem, s); }
  }

  lemma SpanCovers(m: Mem, s: Symbol)
    requires Mapped(m, s.addr, Span(s.size))
    ensures Mapped(m, s.addr, 16) && Mapped(m, s.addr, RoundUp8(s.size)) && Mapped(m, s.addr, s.size)
  {}

  lemma FirstJumpBack(arch: Arch, m: Mem, r: Mem, s: Symbol)
    requires Mapped(m, s.addr, Span(s.size)) && Mapped(r, s.addr, Span(s.size))
    ensures Mapped(m, s.addr, s.size) && Mapped(m, s.addr, 16)
    ensures var back := Store(r, s.addr, Aligned(Load(m, s.addr, s.size)));
            && Mapped(back, s.addr, 16)
            && (s.size >= 16 ==> Load(back, s.addr, 16) == Load(m, s.addr, 16))
  {
    SpanCovers(m, s);
    if s.size >= 16 {
      var b := Load(m, s.addr, s.size);
      forall k | 0 <= k < 16 ensures Aligned(b)[k] == m[s.addr + k] { AlignedAt(b, k); }
    }
  }

  /** Where such a run can start: three relocations, the last two of one symbol, and a process
      of 64 bytes under a kernel that maps at the first gap. */
  method PileUpStart() returns (program: TracedProgram, image: FakeImage, text: seq<byte>, rels: seq<Rela>, s: Symbol,
                                variables: map<string, nat>, names: seq<string>)
    ensures fresh(program) && fresh(image) && s.size == 16
    ensures Start(program, image, s, variables, names) && Repeating(image, text, rels, variables)
    ensures image.Attaches(program, Found(s), variables)
    ensures RoomLeft(program, program.regs, program.mem, Larger(|image.content|, program.pageSize), 2)
  {
    hide Linked, Offsets, LastRels, HasPages, RoomLeft, Larger, Load, Store, Sites, Distinct;
    text, rels := Zeroes(12), [Rela(0, 0, "A"), Rela(4, 0, "B"), Rela(8, 0, "B")];
    variables, names := map["A" := 1, "B" := 1], ["A", "B"];
    PileLinks(text, rels, variables);
    image := new FakeImage(Amd64, Linked(Amd64, text, rels).value, Offsets(Amd64, text, rels));
    var mem: Mem := Store(map[], 4096, Zeroes(64));
    program := Boot(Amd64, 4096, mem, 4096);
    s := Symbol(4112, 16);
    PileRoom(program, mem, image.content);
  }

  /** And the run: two attaches, and two images are mapped; the bytes saved are a jump to the
      first, and the function jumps to the second. */
  method ImagesPileUp() returns (program: TracedProgram, image: FakeImage, s: Symbol)
    ensures fresh(program) && fresh(image) && program.Valid() && image.maps == 2
    ensures image.fakeEntry.Some? && image.originFuncCode.Some? && |image.originFuncCode.value| == 16
    ensures Mapped(program.mem, s.addr, 16)
    ensures JumpTarget(image.arch, Load(program.mem, s.addr, 16)) == Some(image.fakeEntry.value.start)
    ensures exists start :: JumpTarget(image.arch, image.originFuncCode.value) == Some(start) && start != image.fakeEntry.value.start
  {
    hide Repeating, HasPages, Recognised, PlaceOf, RoomLeft, Larger, Load, OnlyAt, JumpTarget, Free, Start, Succeeds;
    var text, rels, variables, names;
    program, image, text, rels, s, variables, names := PileUpStart();
    var first, second;
    ghost var mid;
    first, second, mid := TwoMappings(program, image, text, rels, s, variables, names);
    assert Hidden(image.arch, image.content, |image.offset|, s, Now(program, image));
    assert image.originFuncCode.value == Load(mid.mem, s.addr, 16);
    OtherPlace(mid.mem, mid.entry.value.start, image.fakeEntry.value);
  }

  lemma OtherPlace(m: Mem, start: nat, e: Region)
    requires Free(m, e) && e.start < e.end && start in m
    ensures start != e.start
  {}

  lemma PileLinks(text: seq<byte>, rels: seq<Rela>, variables: map<string, nat>)
    requires |text| == 12 && rels == [Rela(0, 0, "A"), Rela(4, 0, "B"), Rela(8, 0, "B")]
    requires variables == map["A" := 1, "B" := 1]
    ensures Sites(text, rels) && Linked(Amd64, text, rels).Some? && |Linked(Amd64, text, rels).value| == 36
    ensures !Distinct(LastRels(rels)) && |variables| == |Offsets(Amd64, text, rels)|
    ensures forall k :: k in variables ==> k in Offsets(Amd64, text, rels)
  {
    hide Linked, Offsets, LinkedTo, LastRels, Distinct, Sites, Syms, Relocated;
    PileSites(text, rels);
    LinkingFrame(Amd64, text, rels);
    LinkedLength(Amd64, text, rels);
    PileNames(rels);
    EndToEnd.NamesMatch(Amd64, text, rels, variables);
    OffsetsCount(Amd64, text, rels);
    PileRepeats(rels);
  }

  lemma PileSites(text: seq<byte>, rels: seq<Rela>)
    requires |text| == 12 && rels == [Rela(0, 0, "A"), Rela(4, 0, "B"), Rela(8, 0, "B")]
    ensures Sites(text, rels)
  {}

  lemma PileNames(rels: seq<Rela>)
    requires rels == [Rela(0, 0, "A"), Rela(4, 0, "B"), Rela(8, 0, "B")]
    ensures forall k :: k in map["A" := 1, "B" := 1] <==> Relocated(rels, k)
  {
    assert rels[0].sym == "A" && rels[1].sym == "B" && rels[2].sym == "B";
  }

  lemma PileRepeats(rels: seq<Rela>)
    requires |rels| == 3 && rels[1].sym == rels[2].sym && |Syms(rels)| == 2
    ensures !Distinct(LastRels(rels))
  {
    var last := rels[1..];
    LastRelsIs(rels);
    assert last[0].sym == last[1].sym;
  }

  lemma PileRoom(program: TracedProgram, mem: Mem, content: seq<byte>)
    requires program.arch == Amd64 && program.pageSize == 4096 && program.Rules() && Generous(program) && |content| == 36
    requires mem == Store(map[], 4096, Zeroes(64))
    ensures RoomLeft(program, map["rip" := 4096], mem, Larger(|content|, 4096), 2)
    ensures forall c: nat :: HasPages(program, |content|, map["rip" := 4096], mem, c)
    ensures Mapped(mem, 4112, Span(16))
  {
    hide Generous, TracedProgram.Rules, HasPages;
    GrownSize(map[], mem, 4096, 64);
    assert |mem| <= 64;
    assert Larger(36, 4096) == 8192;
    forall c: nat ensures HasPages(program, |content|, map["rip" := 4096], mem, c) {
      RoomIsPages(program, map["rip" := 4096], mem, |content|, c, 8192, 2);
    }
  }

  lemma RoomIsMapped(arch: Arch, content: seq<byte>, offset: map<string, nat>, m: Mem, base: nat)
    requires RoomFor(arch, content, offset, m, base)
    ensures Mapped(m, base, |content|)
  {}

  lemma OffsetsFit(arch: Arch, text: seq<byte>, rels: seq<Rela>)
    requires Linked(arch, text, rels).Some?
    ensures |Offsets(arch, text, rels)| * VarLength(arch) <= |Linked(arch, text, rels).value|
  {
    hide Linked, Offsets;
    LinkedLength(arch, text, rels);
    OffsetsCount(arch, text, rels);
  }

  lemma HiddenOnceSet(arch: Arch, text: seq<byte>, rels: seq<Rela>, m: Mem, base: nat, variables: map<string, nat>)
    requires |text| > 0 && Sites(text, rels) && Linked(arch, text, rels).Some? && !Distinct(LastRels(rels))
    requires var o := Offsets(arch, text, rels);
             VariablesHold(arch, m, base, o, variables) && |variables| == |o| && forall k :: k in variables ==> variables[k] > 0
    ensures !Recognised(arch, Linked(arch, text, rels).value, m, base, |Offsets(arch, text, rels)|)
  {
    hide Linked, Offsets, Distinct, LastRels, Slot, Laid, Variable, Recognised, SlotHolds, Sites, Slotted;
    var c, o := Linked(arch, text, rels).value, Offsets(arch, text, rels);
    LinkedIsSlotted(arch, text, rels);
    OffsetsFit(arch, text, rels);
    LinkerLays(arch, text, rels);
    LinkingFrame(arch, text, rels);
    var k := EarlyKey(arch, c, o);
    WholeSlotEarly(arch, text, rels, k);
    SameDomain(variables, o);
    ZeroSlot(arch, c, m, base, |o|, o[k], variables[k]);
  }

  lemma SameDomain(variables: map<string, nat>, o: map<string, nat>)
    requires |variables| == |o| && forall k :: k in variables ==> k in o
    ensures variables.Keys == o.Keys
  {
    assert o.Keys == variables.Keys + (o.Keys - variables.Keys);
    assert |o.Keys| == |variables.Keys| + |o.Keys - variables.Keys|;
  }

  lemma WholeSlotEarly(arch: Arch, text: seq<byte>, rels: seq<Rela>, k: string)
    requires Linked(arch, text, rels).Some? && k in Offsets(arch, text, rels)
    requires var c, o := Linked(arch, text, rels).value, Offsets(arch, text, rels);
             |o| * VarLength(arch) <= |c| && o[k] < |c| - |o| * VarLength(arch)
    ensures var c, o := Linked(arch, text, rels).value, Offsets(arch, text, rels);
            |text| <= o[k] && o[k] + VarLength(arch) <= |c| - |o| * VarLength(arch)
  {
    hide Linked, Offsets, Slot, LastOf;
    var o := Offsets(arch, text, rels);
    LinkedLength(arch, text, rels);
    OffsetsCount(arch, text, rels);
    OffsetsNamed(arch, text, rels, k);
    var i := HasLast(rels, k);
    OffsetAtLast(arch, text, rels, k, i);
    SlotDifference(arch, text, |rels|, |o|);
    SlotBounds(arch, text, |rels| - |o|, i);
    SlotBounds(arch, text, i, |rels| - |o|);
  }

  /** A recognised slot reads as zero, which no set one does. */
  lemma ZeroSlot(arch: Arch, content: seq<byte>, m: Mem, base: nat, n: nat, at: nat, v: nat)
    requires SlotHolds(arch, m, base + at, v) && v > 0
    requires at + VarLength(arch) <= |content| - n * VarLength(arch)
    requires forall x :: at <= x < |content| ==> content[x] == 0
    ensures !Recognised(arch, content, m, base, n)
  {
    if forall x :: base + at <= x < base + at + 8 ==> m[x] == 0 { ZeroRead(m, base + at); }
  }

  lemma ZeroRead(m: Mem, a: nat)
    requires Mapped(m, a, 8) && forall x :: a <= x < a + 8 ==> m[x] == 0
    ensures Read64(m, a) == 0
  {
    assert Load(m, a, 8) == LittleEndian(0, 8);
    Pow256Values();
    ReadBack(0, 8);
  }
}

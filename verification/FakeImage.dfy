// The fake image: attaching it to a process, and recovering the process.
module FakeImages {
  import opened Int64
  import opened Memory
  import opened Linker
  import opened Tracee
  import opened Injection

  datatype Search = Here | Nowhere | Failed

  /** The image at base is as linked, but for the last bytes. */
  ghost predicate Recognised(arch: Arch, content: seq<byte>, m: Mem, base: nat, varNum: nat) {
    && varNum * VarLength(arch) <= |content|
    && Mapped(m, base, |content|)
    && forall x :: base <= x < base + |content| - varNum * VarLength(arch) ==> m[x] == content[x - base]
  }

  /** Where the lookup points, the target has the bytes that will be touched. */
  ghost predicate Locatable(m: Mem, lookup: Lookup) {
    lookup.Found? ==> lookup.symbol.size > 0 && Mapped(m, lookup.symbol.addr, Span(lookup.symbol.size))
  }

  /** The kernel has room for so many bytes, in a state. */
  ghost predicate HasPages(program: TracedProgram, length: nat, regs: Regs, mem: Mem, calls: nat) {
    program.pageSize > 0 && program.Obtains(regs, mem, calls, length, 0)
  }

  /** And where the kernel then puts them. */
  ghost function PlaceOf(program: TracedProgram, length: nat, regs: Regs, mem: Mem, calls: nat): nat {
    if program.pageSize > 0 && IpReg(program.arch) in regs then program.Place(regs, mem, calls, length, 0) else 0
  }

  /** When attaching succeeds: the number and the names of the variables are right, there is a
      vDSO, and the image is known or its function found and the kernel has room for it. */
  ghost predicate Succeeds(program: TracedProgram, content: seq<byte>, offset: map<string, nat>, entry: Option<Region>,
                           regs: Regs, mem: Mem, calls: nat, lookup: Lookup, variables: map<string, nat>) {
    && |variables| == |offset| && !lookup.NoVdso? && (forall k :: k in variables ==> k in offset)
    && (entry.Some? || (lookup.Found? && HasPages(program, |content|, regs, mem, calls + 1)))
  }

  class FakeImage {
    const arch: Arch
    const content: seq<byte>
    const offset: map<string, nat>
    var originFuncCode: Option<seq<byte>>
    var originAddress: nat
    var fakeEntry: Option<Region>
    // How many images it has mapped into the target.
    ghost var maps: nat

    constructor (arch: Arch, content: seq<byte>, offset: map<string, nat>)
      ensures this.arch == arch && this.content == content && this.offset == offset
      ensures originFuncCode == None && originAddress == 0 && fakeEntry == None && maps == 0
      ensures Shaped()
    {
      this.arch, this.content, this.offset := arch, content, offset;
      originFuncCode, originAddress, fakeEntry, maps := None, 0, None, 0;
    }

    /** fakeEntry is what MmapSlice returned for the content. */
    predicate Shaped() reads this {
      fakeEntry.Some? ==> fakeEntry.value.end == fakeEntry.value.start + |content| && fakeEntry.value.start < TWO64
    }

    /** The invariant of every run: at most one image is mapped, and the function's bytes are
        the original ones or the jump, as OriginFuncCode tells. */
    ghost predicate Good(m: Mem, s: Symbol, orig: seq<byte>) reads this {
      && Shaped() && Laid(arch, content, offset)
      && Injected(arch, content, |offset|, m, s, orig, fakeEntry, originFuncCode, originAddress)
      && maps == if fakeEntry.Some? then 1 else 0
    }

    method SetVarUint64(program: TracedProgram, entry: Region, symbol: string, value: nat) returns (ok: bool)
      requires program.Valid() && program.arch == arch && value < TWO64
      modifies program
      ensures program.Valid() && program.regs == old(program.regs) && program.calls >= old(program.calls)
      ensures symbol !in offset ==> !ok && program.mem == old(program.mem)
      ensures symbol in offset && program.NoFailure(old(program.calls), program.calls) &&
              entry.start + offset[symbol] + VarLength(arch) <= TWO64 &&
              Mapped(old(program.mem), entry.start + offset[symbol], VarLength(arch)) ==>
                ok && program.mem == SetVar(arch, old(program.mem), entry.start + offset[symbol], value)
    {
      hide Store;
      if symbol !in offset { return false; }
      var at := Wrapped(entry.start + offset[symbol]);
      if arch.Amd64? {
        ok := program.WriteUint64ToAddr(at, value);
        return;
      }
      var valueAt := Wrapped(at + 8);
      ok := program.WriteUint64ToAddr(at, valueAt);
      if !ok { return; }
      StoredStaysMapped(old(program.mem), at, LittleEndian(valueAt, 8), valueAt, 8);
      ok := program.WriteUint64ToAddr(valueAt, value);
    }

    /** The loop over the variables, in the order the map yields them. */
    method SetVariables(program: TracedProgram, entry: Region, variables: map<string, nat>, names: seq<string>)
      returns (ok: bool)
      requires program.Valid() && program.arch == arch
      requires Enumerates(names, variables) && forall k :: k in variables ==> variables[k] < TWO64
      modifies program
      ensures program.Valid() && program.regs == old(program.regs) && program.calls >= old(program.calls)
      ensures program.NoFailure(old(program.calls), program.calls)
              && RoomFor(arch, content, offset, old(program.mem), entry.start) ==>
                && (ok <==> forall k :: k in variables ==> k in offset)
                && VariablesOnly(arch, old(program.mem), program.mem, entry.start, offset)
                && (ok ==> VariablesHold(arch, program.mem, entry.start, offset, variables))
    {
      hide SetVar, SetVars, RoomFor, VariablesOnly, VariablesHold;
      ghost var m := program.mem;
      ghost var ready := RoomFor(arch, content, offset, m, entry.start);
      NoneSet(arch, m, entry.start, offset, variables);
      var i := 0;
      ok := true;
      while i < |names|
        invariant 0 <= i <= |names| && ok
        invariant program.Valid() && program.regs == old(program.regs) && program.calls >= old(program.calls)
        invariant forall k :: k in names[..i] ==> k in offset
        invariant ready && program.NoFailure(old(program.calls), program.calls) ==>
                    program.mem == SetVars(arch, m, entry.start, offset, variables, names[..i])
      {
        if ready { OneMoreSet(arch, m, entry.start, content, offset, variables, names, i); }
        ok := SetVarUint64(program, entry, names[i], variables[names[i]]);
        if !ok { return; }
        i := i + 1;
      }
      assert names[..i] == names;
      if ready { AllSet(arch, m, entry.start, content, offset, variables, names); }
    }

    /** FindInjectedImage: the image is there if all of it but the last bytes, where varNum
        variables would be, is as linked.  A read that fails counts as not there. */
    method FindInjectedImage(program: TracedProgram, varNum: nat) returns (r: Search)
      requires Shaped() && program.arch == arch
      modifies program`calls
      ensures program.calls == old(program.calls) + (if fakeEntry.Some? && |content| > 0 then 1 else 0)
      ensures fakeEntry.None? ==> r == Nowhere
      ensures r == Here ==> fakeEntry.Some? && Recognised(arch, content, program.mem, fakeEntry.value.start, varNum)
      ensures fakeEntry.Some? && program.NoFailure(old(program.calls), program.calls) && |content| > 0
              && Mapped(program.mem, fakeEntry.value.start, |content|) ==>
                if varNum * VarLength(arch) > |content| then r == Failed
                else r == if Recognised(arch, content, program.mem, fakeEntry.value.start, varNum) then Here else Nowhere
    {
      if fakeEntry.None? { return Nowhere; }
      if fakeEntry.value.end == fakeEntry.value.start { return Failed; }
      var ok, b := program.ReadSlice(fakeEntry.value.start, fakeEntry.value.end - fakeEntry.value.start);
      if !ok { return Nowhere; }
      if varNum * 8 > |content| { return Failed; }
      // On arm64 the check above is too weak, and the slice below may panic.
      if varNum * VarLength(arch) > |content| { return Failed; }
      var n := |content| - varNum * VarLength(arch);
      return if b[..n] == content[..n] then Here else Nowhere;
    }

    /** InjectFakeImage: the image, and then the jump to it.  It is mapped exactly when the
        kernel has room, and the function patched exactly when it was found besides. */
    method InjectFakeImage(program: TracedProgram, lookup: Lookup) returns (ok: bool, ghost writes: Mem)
      requires program.Valid() && program.arch == arch && Shaped()
      modifies this, program
      ensures program.Valid() && program.calls >= old(program.calls) && Shaped()
      ensures old(originFuncCode).None? && !ok ==> originFuncCode.None? && originAddress == old(originAddress)
      ensures !ok && !lookup.Found? ==> originFuncCode == old(originFuncCode) && originAddress == old(originAddress)
      ensures ok ==> fakeEntry.Some? && originFuncCode.Some? && lookup.Found? && originAddress == lookup.symbol.addr
      ensures (!ok && maps == old(maps) && program.NoFailure(old(program.calls), program.calls) && |content| > 0) ==>
                program.mem == old(program.mem)
      ensures || (fakeEntry == old(fakeEntry) && maps == old(maps))
              || (maps == old(maps) + 1 && fakeEntry.Some? && 0 < fakeEntry.value.start)
      ensures maps > old(maps) && program.NoFailure(old(program.calls), program.calls)
              && Locatable(old(program.mem), lookup) ==>
                var mid := Store(old(program.mem) + writes, fakeEntry.value.start, content);
                && Holds(old(program.mem), mid, writes, fakeEntry.value, content)
                && (ok <==> lookup.Found?)
                && program.mem == (if ok then Store(mid, lookup.symbol.addr, JumpBytes(arch, fakeEntry.value.start)) else mid)
                && (ok ==> Mapped(mid, lookup.symbol.addr, lookup.symbol.size)
                           && originFuncCode.value == Load(mid, lookup.symbol.addr, lookup.symbol.size))
                && Grows(old(program.mem), program.mem, fakeEntry.value.start, Larger(|content|, program.pageSize))
      ensures program.NoFailure(old(program.calls), program.calls) && |content| > 0 ==> program.regs == old(program.regs)
      ensures program.NoFailure(old(program.calls), program.calls) ==>
                && (maps > old(maps) <==> |content| > 0 && HasPages(program, |content|, old(program.regs), old(program.mem), old(program.calls)))
                && (maps > old(maps) ==>
                      fakeEntry.value.start == PlaceOf(program, |content|, old(program.regs), old(program.mem), old(program.calls)))
      ensures ok ==> maps > old(maps)
    {
      hide Store, JumpBytes, TracedProgram.Obtains, TracedProgram.Place, WholePages, Larger;
      var e;
      ok, e, writes := program.MmapSlice(content);
      if !ok { return; }
      fakeEntry := Some(e);
      maps := maps + 1;
      if !lookup.Found? { return false, writes; }
      ghost var mid := program.mem;
      var code;
      ok, code := program.ReadSlice(lookup.symbol.addr, lookup.symbol.size);
      if !ok { return; }
      ok := program.JumpToFakeFunc(lookup.symbol.addr, e.start);
      if !ok {
        var rewritten := TryReWriteFakeImage(program);
        return;
      }
      originFuncCode, originAddress := Some(code), lookup.symbol.addr;
    }

    /** TryReWriteFakeImage: the saved bytes, padded to whole words. */
    method TryReWriteFakeImage(program: TracedProgram) returns (ok: bool)
      requires program.Valid() && program.arch == arch
      modifies this`originFuncCode, this`originAddress, program`mem, program`calls
      ensures program.Valid() && program.calls >= old(program.calls)
      ensures old(originFuncCode).None? ==> ok && program.mem == old(program.mem) && originAddress == old(originAddress)
      ensures ok ==> originFuncCode.None?
      ensures !ok ==> originFuncCode == old(originFuncCode) && originAddress == old(originAddress)
      ensures old(originFuncCode).Some? && ok ==>
                originAddress == 0 && program.mem == Store(old(program.mem), old(originAddress), Aligned(old(originFuncCode).value))
      ensures (&& old(originFuncCode).Some? && program.NoFailure(old(program.calls), program.calls)
               && Mapped(old(program.mem), old(originAddress), RoundUp8(|old(originFuncCode).value|))) ==> ok
    {
      ok := true;
      if originFuncCode.Some? {
        ok := program.PtraceWriteSlice(originAddress, originFuncCode.value);
        if !ok { return; }
        originFuncCode, originAddress := None, 0;
      }
    }

    /** Attaching maps a new image: none is known, or the known one is not recognised. */
    ghost predicate Unseen(m: Mem, varNum: nat) reads this {
      fakeEntry.None? || !Recognised(arch, content, m, fakeEntry.value.start, varNum)
    }

    /** The known image, if any, is still mapped, and the count of variables fits. */
    ghost predicate Countable(m: Mem, varNum: nat) reads this {
      && |content| > 0 && varNum * VarLength(arch) <= |content|
      && (fakeEntry.Some? ==> Mapped(m, fakeEntry.value.start, |content|))
    }

    /** No image is known; or one is, still mapped, but its compared part has changed. */
    ghost predicate Unknown(m: Mem) reads this {
      || fakeEntry.None?
      || (Countable(m, |offset|) && !Recognised(arch, content, m, fakeEntry.value.start, |offset|))
    }

    /** The first half of attaching: the image found, or injected. */
    method FindOrInject(program: TracedProgram, lookup: Lookup, varNum: nat, ghost s: Symbol, ghost orig: seq<byte>)
      returns (ok: bool, injected: bool)
      requires program.Valid() && program.arch == arch && Shaped() && varNum == |offset|
      modifies this, program
      ensures program.Valid() && program.calls >= old(program.calls) && Shaped()
      ensures ok ==> fakeEntry.Some?
      ensures (injected ==> ok) && (!injected && old(originFuncCode).None? ==> originFuncCode.None?)
      ensures (program.NoFailure(old(program.calls), program.calls) && old(Countable(program.mem, varNum))) ==>
                maps == old(maps) +
                  (if && old(Unseen(program.mem, varNum))
                      && HasPages(program, |content|, old(program.regs), old(program.mem),
                                 old(program.calls) + if old(fakeEntry).Some? then 1 else 0) then 1 else 0)
      ensures (&& program.NoFailure(old(program.calls), program.calls) && old(Unknown(program.mem))
               && Locatable(old(program.mem), lookup) && Slotted(arch, content, offset)) ==>
                var at := old(program.calls) + if old(fakeEntry).Some? then 1 else 0;
                && (ok <==> lookup.Found? && HasPages(program, |content|, old(program.regs), old(program.mem), at))
                && (ok ==> && RoomFor(arch, content, offset, program.mem, fakeEntry.value.start)
                           && fakeEntry.value.start == PlaceOf(program, |content|, old(program.regs), old(program.mem), at)
                           && Replaces(arch, old(program.mem), program.mem, lookup.symbol, fakeEntry.value, originFuncCode)
                           && originAddress == lookup.symbol.addr
                           && Grows(old(program.mem), program.mem, fakeEntry.value.start, Larger(|content|, program.pageSize)))
                && program.regs == old(program.regs)
      ensures (&& old(Good(program.mem, s, orig)) && program.NoFailure(old(program.calls), program.calls)
               && (lookup.Found? ==> lookup.symbol == s)) ==>
                && Good(program.mem, s, orig) && program.regs == old(program.regs)
                && injected == (ok && old(fakeEntry).None?)
                && (ok <==> || old(fakeEntry).Some?
                            || (lookup.Found? && HasPages(program, |content|, old(program.regs), old(program.mem), old(program.calls))))
                && (if old(fakeEntry).Some? then
                      fakeEntry == old(fakeEntry) && originFuncCode == old(originFuncCode) && program.mem == old(program.mem)
                    else
                      && (ok ==> originFuncCode.Some?)
                      && (fakeEntry.Some? ==>
                            && Free(old(program.mem), fakeEntry.value)
                            && fakeEntry.value.start == PlaceOf(program, |content|, old(program.regs), old(program.mem), old(program.calls)))
                      && OnlyAt(old(program.mem), program.mem, s.addr, 16))
    {
      hide Store, JumpBytes, Injected, Laid, Slotted, RoomFor, Holds, Recognised, OnlyAt, Free, Span, HasPages, PlaceOf, Replaces, Larger, WholePages;
      ghost var m := program.mem;
      ghost var good := Good(m, s, orig) && (lookup.Found? ==> lookup.symbol == s);
      NotEmpty(arch, content, offset);
      if good {
        Nothing(m, s);
        SymbolMapped(arch, content, |offset|, m, s, orig, fakeEntry, originFuncCode, originAddress);
        if fakeEntry.Some? { Seen(arch, content, offset, m, s, orig, fakeEntry.value, originFuncCode, originAddress); }
      }
      injected := false;
      var found := FindInjectedImage(program, varNum);
      ok := found.Here?;
      if !found.Nowhere? { return; }
      ghost var writes;
      ok, writes := InjectFakeImage(program, lookup);
      if maps > old(maps) && program.NoFailure(old(program.calls), program.calls) {
        ghost var mid := Store(m + writes, fakeEntry.value.start, content);
        if ok && Locatable(m, lookup) { HasRoom(arch, content, offset, m, writes, mid, fakeEntry.value, lookup.symbol); }
        if good { FirstInjection(arch, content, offset, m, writes, mid, fakeEntry.value, s, orig, old(originAddress)); }
      }
      injected := ok;
    }

    /** The second half: the variables, and what is deferred when the image is new. */
    method SetOrRollBack(program: TracedProgram, variables: map<string, nat>, names: seq<string>, injected: bool,
                         ghost before: Mem, ghost s: Symbol, ghost orig: seq<byte>) returns (ok: bool)
      requires program.Valid() && program.arch == arch && Shaped() && fakeEntry.Some?
      requires Enumerates(names, variables) && forall k :: k in variables ==> variables[k] < TWO64
      modifies this, program
      ensures program.Valid() && program.calls >= old(program.calls) && Shaped()
      ensures fakeEntry == old(fakeEntry) && maps == old(maps) && program.regs == old(program.regs)
      ensures injected && !ok ==> originFuncCode.None?
      ensures !injected || ok ==> originFuncCode == old(originFuncCode) && originAddress == old(originAddress)
      ensures (&& program.NoFailure(old(program.calls), program.calls)
               && RoomFor(arch, content, offset, old(program.mem), fakeEntry.value.start)) ==>
                && (ok <==> forall k :: k in variables ==> k in offset)
                && (ok ==> VariablesHold(arch, program.mem, fakeEntry.value.start, offset, variables))
                && (ok ==> VariablesOnly(arch, old(program.mem), program.mem, fakeEntry.value.start, offset))
      ensures old(Good(program.mem, s, orig)) && program.NoFailure(old(program.calls), program.calls) ==>
                && Good(program.mem, s, orig) && program.regs == old(program.regs)
                && RoomFor(arch, content, offset, old(program.mem), fakeEntry.value.start)
                && (!injected ==> VariablesOnly(arch, old(program.mem), program.mem, fakeEntry.value.start, offset))
                && (OnlyAt(before, old(program.mem), s.addr, 16) && Free(before, fakeEntry.value) ==>
                      OnlyAt(before, program.mem, s.addr, if ok || !injected then 16 else Span(s.size)))
    {
      hide Injected, Laid, VariablesOnly, VariablesHold, RoomFor, OnlyAt, Free, Span, Store, Aligned, Mapped, RoundUp8;
      hide Recognised, SetVars;
      ghost var m := program.mem;
      ghost var good := Good(m, s, orig);
      if good { Seen(arch, content, offset, m, s, orig, fakeEntry.value, originFuncCode, originAddress); }
      ok := SetVariables(program, fakeEntry.value, variables, names);
      if ok || !injected {
        if good && program.NoFailure(old(program.calls), program.calls) {
          VariablesKeep(arch, content, offset, before, m, program.mem, s, orig, fakeEntry.value, originFuncCode, originAddress);
        }
        return;
      }
      if good && program.NoFailure(old(program.calls), program.calls) {
        Wider(before, program.mem, s);
        RollBackKeeps(arch, content, offset, before, m, program.mem, s, orig, fakeEntry.value, originFuncCode, originAddress);
      }
      var rewritten := TryReWriteFakeImage(program);
      originFuncCode, originAddress := None, 0;
    }

    ghost predicate Attaches(program: TracedProgram, lookup: Lookup, variables: map<string, nat>) reads this, program {
      Succeeds(program, content, offset, fakeEntry, program.regs, program.mem, program.calls, lookup, variables)
    }

    /** AttachToProcess.  Whatever the primitives do, a failed first attach leaves nothing to
        recover.  When none fails, the invariant is kept, and it succeeds exactly when Attaches
        says so.  Success means that the image reads every variable as it was set, and that the
        function jumps to it if the image is new or the function did so before; a later attach
        touches nothing but the slots.  An image that is no longer recognised is as good as none:
        another is mapped, and what is then saved are the bytes the function has by now. */
    method AttachToProcess(program: TracedProgram, lookup: Lookup, variables: map<string, nat>, names: seq<string>,
                           ghost s: Symbol, ghost orig: seq<byte>) returns (ok: bool)
      requires program.Valid() && program.arch == arch && Shaped()
      requires Enumerates(names, variables) && forall k :: k in variables ==> variables[k] < TWO64
      modifies this, program
      ensures program.Valid() && program.calls >= old(program.calls) && Shaped()
      ensures ok ==> fakeEntry.Some?
      ensures |variables| != |offset| ==> !ok && unchanged(this) && unchanged(program)
      ensures !ok && old(originFuncCode).None? ==> originFuncCode.None?
      ensures (&& program.NoFailure(old(program.calls), program.calls) && old(Countable(program.mem, |offset|))
               && |variables| == |offset| && !lookup.NoVdso?) ==>
                maps == old(maps) +
                  (if && old(Unseen(program.mem, |offset|))
                      && HasPages(program, |content|, old(program.regs), old(program.mem),
                                 old(program.calls) + if old(fakeEntry).Some? then 2 else 1) then 1 else 0)
      ensures (&& program.NoFailure(old(program.calls), program.calls) && old(Unknown(program.mem))
               && Locatable(old(program.mem), lookup) && Slotted(arch, content, offset)) ==>
                var before := old(program.calls) + if old(fakeEntry).Some? then 1 else 0;
                && (ok <==> Succeeds(program, content, offset, None, old(program.regs), old(program.mem), before, lookup, variables))
                && (ok ==> && VariablesHold(arch, program.mem, fakeEntry.value.start, offset, variables)
                           && RoomFor(arch, content, offset, program.mem, fakeEntry.value.start)
                           && fakeEntry.value.start == PlaceOf(program, |content|, old(program.regs), old(program.mem), before + 1)
                           && Replaces(arch, old(program.mem), program.mem, lookup.symbol, fakeEntry.value, originFuncCode)
                           && originAddress == lookup.symbol.addr
                           && Grows(old(program.mem), program.mem, fakeEntry.value.start, Larger(|content|, program.pageSize)))
                && program.regs == old(program.regs)
      ensures (&& old(Good(program.mem, s, orig)) && program.NoFailure(old(program.calls), program.calls)
               && (lookup.Found? ==> lookup.symbol == s)) ==>
                && Good(program.mem, s, orig) && program.regs == old(program.regs)
                && (ok <==> old(Attaches(program, lookup, variables)))
                && (ok ==> VariablesHold(arch, program.mem, fakeEntry.value.start, offset, variables))
                && (ok ==> (originFuncCode.Some? <==> old(fakeEntry).None? || old(originFuncCode).Some?))
                && (if old(fakeEntry).Some? then
                      && fakeEntry == old(fakeEntry) && originFuncCode == old(originFuncCode)
                      && VariablesOnly(arch, old(program.mem), program.mem, fakeEntry.value.start, offset)
                    else
                      && (fakeEntry.Some? ==>
                            && Free(old(program.mem), fakeEntry.value)
                            && fakeEntry.value.start
                               == PlaceOf(program, |content|, old(program.regs), old(program.mem), old(program.calls) + 1))
                      && OnlyAt(old(program.mem), program.mem, s.addr, if ok then 16 else Span(s.size)))
    {
      hide Injected, Laid, VariablesOnly, VariablesHold, RoomFor, OnlyAt, Free, Span, Mapped, Recognised, Enumerates;
      hide Slotted, HasPages, PlaceOf, Locatable, Replaces, Grows, Larger, WholePages;
      ghost var m := program.mem;
      Nothing(m, s);
      if fakeEntry.Some? { NoVariables(arch, m, fakeEntry.value.start, offset); }
      if |variables| != |offset| { return false; }
      ok := program.Primitive();  // Trace
      if !ok { return; }
      if lookup.NoVdso? { return false; }
      var injected;
      ok, injected := FindOrInject(program, lookup, |variables|, s, orig);
      Wider(m, program.mem, s);
      if !ok { return; }
      ghost var mid := program.mem;
      ghost var code := originFuncCode;
      ok := SetOrRollBack(program, variables, names, injected, m, s, orig);
      SameKeys(arch, mid, program.mem, fakeEntry.value.start, content, offset);
      if ok && lookup.Found? && Locatable(m, lookup) && Slotted(arch, content, offset) {
        SettingKeeps(arch, m, mid, program.mem, lookup.symbol, fakeEntry.value, code, content, offset, Larger(|content|, program.pageSize));
      }
    }

    /** Recover: nothing to do unless OriginFuncCode is there; nothing done unless the image
        is recognised with as many variables as given; an error exactly when so many do not
        fit. */
    method Recover(program: TracedProgram, varNum: nat, ghost s: Symbol, ghost orig: seq<byte>) returns (ok: bool)
      requires program.Valid() && program.arch == arch && Shaped()
      modifies this, program
      ensures program.Valid() && program.calls >= old(program.calls) && Shaped()
      ensures old(originFuncCode).None? ==> ok && unchanged(this) && unchanged(program)
      ensures (&& program.NoFailure(old(program.calls), program.calls) && old(originFuncCode).Some? && old(fakeEntry).Some?
               && |content| > 0 && Mapped(old(program.mem), old(fakeEntry).value.start, |content|)
               && Mapped(old(program.mem), old(originAddress), RoundUp8(|old(originFuncCode).value|))) ==>
                && (ok <==> varNum * VarLength(arch) <= |content|)
                && (if Recognised(arch, content, old(program.mem), old(fakeEntry).value.start, varNum)
                    then && originFuncCode.None?
                         && program.mem == Store(old(program.mem), old(originAddress), Aligned(old(originFuncCode).value))
                    else program.mem == old(program.mem) && originFuncCode == old(originFuncCode))
      ensures fakeEntry == old(fakeEntry) && program.regs == old(program.regs) && maps == old(maps)
      ensures (old(Good(program.mem, s, orig)) && program.NoFailure(old(program.calls), program.calls)) ==>
                && Good(program.mem, s, orig) && program.regs == old(program.regs) && fakeEntry == old(fakeEntry)
                && (ok <==> old(originFuncCode).None? || varNum * VarLength(arch) <= |content|)
                && (originFuncCode.None? <==>
                      || old(originFuncCode).None?
                      || Recognised(arch, content, old(program.mem), fakeEntry.value.start, varNum))
                && (varNum == |offset| ==> ok && originFuncCode.None?)
                && program.mem == (if originFuncCode == old(originFuncCode) then old(program.mem)
                                   else Store(old(program.mem), s.addr, Aligned(orig)))
    {
      hide Injected, Laid, RoomFor, Span, Store, Aligned, Mapped, RoundUp8;
      if originFuncCode.None? { return true; }
      ghost var n, m := |offset|, program.mem;
      ghost var good := Good(m, s, orig);
      if good {
        SymbolMapped(arch, content, n, m, s, orig, fakeEntry, originFuncCode, originAddress);
        Seen(arch, content, offset, m, s, orig, fakeEntry.value, originFuncCode, originAddress);
        RewriteKeeps(arch, content, n, m, s, orig, fakeEntry.value, 0);
      }
      ok := program.Primitive();  // Trace
      if !ok { return; }
      var found := FindInjectedImage(program, varNum);
      if !found.Here? { return found.Nowhere?; }
      ok := TryReWriteFakeImage(program);
    }
  }

  /** Bytes that were mapped still are, and differ only in so many at an address. */
  ghost predicate OnlyAt(m: Mem, r: Mem, a: nat, n: nat) {
    forall x :: x in m ==> x in r && (!(a <= x < a + n) ==> r[x] == m[x])
  }

  /** What injecting does to a function: its bytes are saved, and it jumps to the image, which
      is where nothing was; nothing else that was mapped has changed. */
  ghost predicate Replaces(arch: Arch, m: Mem, r: Mem, s: Symbol, e: Region, code: Option<seq<byte>>) {
    && Free(m, e) && OnlyAt(m, r, s.addr, 16)
    && Mapped(m, s.addr, s.size) && code == Some(Load(m, s.addr, s.size))
    && Mapped(r, s.addr, 16) && Load(r, s.addr, 16) == JumpBytes(arch, e.start)
  }

  lemma SettingKeeps(arch: Arch, m: Mem, mid: Mem, r: Mem, s: Symbol, e: Region, code: Option<seq<byte>>,
                     content: seq<byte>, offset: map<string, nat>, n: nat)
    requires Slotted(arch, content, offset) && Locatable(m, Found(s)) && e.end == e.start + |content|
    ensures Replaces(arch, m, mid, s, e, code) && VariablesOnly(arch, mid, r, e.start, offset) ==> Replaces(arch, m, r, s, e, code)
    ensures Grows(m, mid, e.start, n) && VariablesOnly(arch, mid, r, e.start, offset) ==> Grows(m, r, e.start, n)
  {
    hide JumpBytes, Load;
    if Replaces(arch, m, mid, s, e, code) && VariablesOnly(arch, mid, r, e.start, offset) {
      forall x | x in m ensures x in r && r[x] == mid[x] { assert !InSlot(arch, e.start, offset, x); }
      LoadSame(mid, r, s.addr, 16);
    }
  }

  ghost predicate Free(m: Mem, e: Region) {
    forall x :: e.start <= x < e.end ==> x !in m
  }

  lemma Nothing(m: Mem, s: Symbol)
    ensures OnlyAt(m, m, s.addr, 16) && OnlyAt(m, m, s.addr, Span(s.size))
  {}

  lemma Wider(m: Mem, r: Mem, s: Symbol)
    ensures OnlyAt(m, r, s.addr, 16) ==> OnlyAt(m, r, s.addr, Span(s.size))
  {}

  lemma NoVariables(arch: Arch, m: Mem, base: nat, offset: map<string, nat>)
    ensures VariablesOnly(arch, m, m, base, offset)
  {}

  lemma SameKeys(arch: Arch, m: Mem, r: Mem, base: nat, content: seq<byte>, offset: map<string, nat>)
    ensures VariablesOnly(arch, m, r, base, offset) ==> forall x :: x in r <==> x in m
    ensures VariablesOnly(arch, m, r, base, offset) && RoomFor(arch, content, offset, m, base) ==>
              RoomFor(arch, content, offset, r, base)
  {}

  lemma NotEmpty(arch: Arch, content: seq<byte>, offset: map<string, nat>)
    ensures Laid(arch, content, offset) || Slotted(arch, content, offset) ==> |content| > 0
  {}

  lemma SymbolMapped(arch: Arch, content: seq<byte>, n: nat, m: Mem, s: Symbol, orig: seq<byte>, entry: Option<Region>,
                     code: Option<seq<byte>>, at: nat)
    requires Injected(arch, content, n, m, s, orig, entry, code, at)
    ensures s.size > 0 && |orig| == s.size && Mapped(m, s.addr, Span(s.size)) && Mapped(m, s.addr, RoundUp8(|orig|))
    ensures code.Some? ==> code.value == orig && at == s.addr && entry.Some?
  {}

  lemma Seen(arch: Arch, content: seq<byte>, offset: map<string, nat>, m: Mem, s: Symbol, orig: seq<byte>, e: Region,
             code: Option<seq<byte>>, at: nat)
    requires Injected(arch, content, |offset|, m, s, orig, Some(e), code, at) && Laid(arch, content, offset)
    ensures RoomFor(arch, content, offset, m, e.start) && Recognised(arch, content, m, e.start, |offset|)
    ensures Mapped(m, e.start, |content|) && |content| > 0 && |offset| * VarLength(arch) <= |content|
  {}

  lemma HasRoom(arch: Arch, content: seq<byte>, offset: map<string, nat>, m: Mem, writes: Mem, mid: Mem, e: Region, s: Symbol)
    requires Holds(m, mid, writes, e, content) && Mapped(m, s.addr, Span(s.size)) && s.size > 0
    ensures var r := Store(mid, s.addr, JumpBytes(arch, e.start));
            && (Slotted(arch, content, offset) ==> RoomFor(arch, content, offset, r, e.start))
            && Mapped(mid, s.addr, s.size) && Replaces(arch, m, r, s, e, Some(Load(mid, s.addr, s.size)))
  {
    hide JumpBytes, Load;
    var r := Store(mid, s.addr, JumpBytes(arch, e.start));
    assert forall x :: x in m ==> x !in writes by {
      forall x | x in m ensures x !in writes { assert x in m.Keys; }
    }
    assert Free(m, e) by { forall x | e.start <= x < e.end ensures x !in m { assert x in writes.Keys; } }
    assert forall x :: x in m ==> !(e.start <= x < e.end);
    LoadSame(m, mid, s.addr, s.size);
    StoreLoad(mid, s.addr, JumpBytes(arch, e.start));
  }

  lemma FirstInjection(arch: Arch, content: seq<byte>, offset: map<string, nat>, m: Mem, writes: Mem, mid: Mem, e: Region,
                       s: Symbol, orig: seq<byte>, at: nat)
    requires Injected(arch, content, |offset|, m, s, orig, None, None, at) && Laid(arch, content, offset)
    requires Holds(m, mid, writes, e, content) && 0 < e.start
    ensures Injected(arch, content, |offset|, mid, s, orig, Some(e), None, at)
    ensures Mapped(mid, s.addr, s.size) && Load(mid, s.addr, s.size) == orig
    ensures var r := Store(mid, s.addr, JumpBytes(arch, e.start));
            && Injected(arch, content, |offset|, r, s, orig, Some(e), Some(orig), s.addr)
            && OnlyAt(m, mid, s.addr, 16) && OnlyAt(m, r, s.addr, 16) && Free(m, e)
  {
    hide JumpBytes, Load;
    MappingKeeps(arch, content, |offset|, m, writes, mid, e, s, orig, at);
    JumpKeeps(arch, content, |offset|, mid, s, orig, e, at);
    assert Free(m, e) by {
      forall x | e.start <= x < e.end ensures x !in m { assert x in writes.Keys; }
    }
  }

  lemma VariablesKeep(arch: Arch, content: seq<byte>, offset: map<string, nat>, before: Mem, m: Mem, r: Mem, s: Symbol,
                      orig: seq<byte>, e: Region, code: Option<seq<byte>>, at: nat)
    requires Injected(arch, content, |offset|, m, s, orig, Some(e), code, at) && Laid(arch, content, offset)
    requires VariablesOnly(arch, m, r, e.start, offset)
    ensures Injected(arch, content, |offset|, r, s, orig, Some(e), code, at)
    ensures OnlyAt(before, m, s.addr, 16) && Free(before, e) ==> OnlyAt(before, r, s.addr, 16)
  {
    hide JumpBytes, Load;
    SetVarsKeep(arch, content, offset, m, r, s, orig, e, code, at);
    if OnlyAt(before, m, s.addr, 16) && Free(before, e) {
      forall x | x in before ensures !InSlot(arch, e.start, offset, x) {}
    }
  }

  lemma RollBackKeeps(arch: Arch, content: seq<byte>, offset: map<string, nat>, before: Mem, m: Mem, r: Mem, s: Symbol,
                      orig: seq<byte>, e: Region, code: Option<seq<byte>>, at: nat)
    requires Injected(arch, content, |offset|, m, s, orig, Some(e), code, at) && Laid(arch, content, offset)
    requires VariablesOnly(arch, m, r, e.start, offset)
    ensures code.None? ==> Injected(arch, content, |offset|, r, s, orig, Some(e), None, 0)
    ensures OnlyAt(before, m, s.addr, 16) && Free(before, e) ==> OnlyAt(before, r, s.addr, 16)
    ensures code.Some? ==>
              && code.value == orig && at == s.addr && Mapped(r, s.addr, RoundUp8(|orig|))
              && Injected(arch, content, |offset|, Store(r, s.addr, Aligned(orig)), s, orig, Some(e), None, 0)
              && (OnlyAt(before, m, s.addr, 16) && Free(before, e) ==>
                    OnlyAt(before, Store(r, s.addr, Aligned(orig)), s.addr, Span(s.size)))
  {
    hide InPlace, Store, Aligned, OnlyAt, Free, VariablesOnly, JumpBytes, Load, Laid;
    VariablesKeep(arch, content, offset, before, m, r, s, orig, e, code, at);
    if code.Some? {
      RewriteKeeps(arch, content, |offset|, r, s, orig, e, 0);
      if OnlyAt(before, m, s.addr, 16) && Free(before, e) { RewriteSpan(before, r, s, orig); }
    }
  }

  lemma RewriteSpan(before: Mem, m: Mem, s: Symbol, orig: seq<byte>)
    requires OnlyAt(before, m, s.addr, 16) && |orig| == s.size
    ensures OnlyAt(before, Store(m, s.addr, Aligned(orig)), s.addr, Span(s.size))
  {}
}

// What injecting does to the target's memory: the image's variables, and what every run of
// the injector keeps.
module Injection {
  import opened Int64
  import opened Memory
  import opened Linker
  import opened Tracee

  /** The vDSO function: where it is, and the size its symbol gives. */
  datatype Symbol = Symbol(addr: nat, size: nat)

  /** What looking for the vDSO and for the function in it comes to. */
  datatype Lookup = NoVdso | NoSymbol | Found(symbol: Symbol)

  /** The bytes the injector may touch: the jump takes sixteen whatever the size. */
  function Span(size: nat): nat { if RoundUp8(size) < 16 then 16 else RoundUp8(size) }

  // ---------------------------------------------------------------- variables

  /** Addresses are 64 bits wide. */
  function Wrapped(a: nat): (r: nat)
    ensures r < TWO64
    ensures a < TWO64 ==> r == a
  {
    a % TWO64
  }

  /** SetVarUint64: the value; on arm64 a pointer to the value first. */
  function SetVar(arch: Arch, m: Mem, slot: nat, v: nat): Mem {
    if arch.Amd64? then Store(m, Wrapped(slot), LittleEndian(v, 8))
    else Store(Store(m, Wrapped(slot), LittleEndian(Wrapped(slot + 8), 8)), Wrapped(slot + 8), LittleEndian(v, 8))
  }

  /** The variables named, set one after the other. */
  function SetVars(arch: Arch, m: Mem, base: nat, offset: map<string, nat>,
                   variables: map<string, nat>, names: seq<string>): Mem
    requires forall k :: k in names ==> k in offset && k in variables
  {
    if names == [] then m
    else
      var last := names[|names| - 1];
      SetVar(arch, SetVars(arch, m, base, offset, variables, names[..|names| - 1]), base + offset[last], variables[last])
  }

  /** What the image reads for a variable: the slot itself; on arm64 its instruction loads
      the pointer and a second one the value. */
  function Variable(arch: Arch, m: Mem, slot: nat): Option<nat> {
    if !Mapped(m, slot, 8) then None
    else if arch.Amd64? then Some(Read64(m, slot))
    else if !Mapped(m, Read64(m, slot), 8) then None
    else Some(Read64(m, Read64(m, slot)))
  }

  /** Every variable has its own slot in the content. */
  ghost predicate Slotted(arch: Arch, content: seq<byte>, offset: map<string, nat>) {
    && |content| > 0
    && (forall k :: k in offset ==> offset[k] + VarLength(arch) <= |content|)
    && (forall j, k :: j in offset && k in offset && j != k ==>
          offset[j] + VarLength(arch) <= offset[k] || offset[k] + VarLength(arch) <= offset[j])
  }

  /** And they all lie in the last bytes, those that FindInjectedImage leaves out of its
      comparison. */
  ghost predicate Laid(arch: Arch, content: seq<byte>, offset: map<string, nat>) {
    && Slotted(arch, content, offset)
    && |offset| * VarLength(arch) <= |content|
    && (forall k :: k in offset ==> |content| - |offset| * VarLength(arch) <= offset[k])
  }

  /** Addresses in the slots of an image at base. */
  ghost predicate InSlot(arch: Arch, base: nat, offset: map<string, nat>, x: nat) {
    exists k :: k in offset && base + offset[k] <= x < base + offset[k] + VarLength(arch)
  }

  /** A map's keys in some order, as a range over a Go map gives them. */
  ghost predicate Enumerates(names: seq<string>, variables: map<string, nat>) {
    && (forall k :: k in names <==> k in variables)
    && (forall i, j :: 0 <= i < j < |names| ==> names[i] != names[j])
  }

  lemma SetVarFrame(arch: Arch, m: Mem, slot: nat, v: nat)
    requires slot + VarLength(arch) <= TWO64 && Mapped(m, slot, VarLength(arch))
    ensures var r := SetVar(arch, m, slot, v);
            && (forall x :: x in r <==> x in m)
            && (forall x :: x in m && !(slot <= x < slot + VarLength(arch)) ==> r[x] == m[x])
  {}

  /** A slot that has been set; on arm64 its pointer leads to its own second half. */
  predicate SlotHolds(arch: Arch, m: Mem, slot: nat, v: nat) {
    && Mapped(m, slot, VarLength(arch))
    && if arch.Amd64? then Read64(m, slot) == v
       else Read64(m, slot) == slot + 8 && Read64(m, slot + 8) == v
  }

  lemma HeldIsRead(arch: Arch, m: Mem, slot: nat, v: nat)
    requires SlotHolds(arch, m, slot, v)
    ensures Variable(arch, m, slot) == Some(v)
  {
    assert Mapped(m, slot, 8);
    if arch.Arm64? { assert Mapped(m, slot + 8, 8); }
  }

  lemma SetVarHolds(arch: Arch, m: Mem, slot: nat, v: nat)
    requires slot + VarLength(arch) <= TWO64 && v < TWO64
    ensures SlotHolds(arch, SetVar(arch, m, slot, v), slot, v)
  {
    hide LittleEndian, Load, Store, Read64, FromBytes, Wrapped;
    assert Wrapped(slot) == slot;
    if arch.Amd64? {
      Read64Stored(m, slot, v);
    } else {
      assert Wrapped(slot + 8) == slot + 8;
      var p := Store(m, slot, LittleEndian(slot + 8, 8));
      Read64Stored(m, slot, slot + 8);
      Read64Stored(p, slot + 8, v);
      ReadElsewhere(p, slot + 8, LittleEndian(v, 8), slot);
    }
  }

  lemma ReadElsewhere(m: Mem, a: nat, b: seq<byte>, x: nat)
    requires Mapped(m, x, 8) && (x + 8 <= a || a + |b| <= x)
    ensures Mapped(Store(m, a, b), x, 8) && Read64(Store(m, a, b), x) == Read64(m, x)
  {
    hide Store, FromBytes;
    LoadElsewhere(m, a, b, x, 8);
  }

  lemma StillHolds(arch: Arch, m: Mem, r: Mem, slot: nat, v: nat)
    requires SlotHolds(arch, m, slot, v)
    requires forall x :: slot <= x < slot + VarLength(arch) ==> x in r && r[x] == m[x]
    ensures SlotHolds(arch, r, slot, v)
  {
    LoadSame(m, r, slot, 8);
    if arch.Arm64? { LoadSame(m, r, slot + 8, 8); }
  }

  lemma OneSlotOnly(arch: Arch, m: Mem, p: Mem, r: Mem, base: nat, offset: map<string, nat>, k: string)
    requires VariablesOnly(arch, m, p, base, offset) && k in offset
    requires forall x :: x in r <==> x in p
    requires forall x :: x in p && !(base + offset[k] <= x < base + offset[k] + VarLength(arch)) ==> r[x] == p[x]
    ensures VariablesOnly(arch, m, r, base, offset)
  {
    forall x | x in m && !InSlot(arch, base, offset, x) ensures r[x] == m[x] {
      assert !(base + offset[k] <= x < base + offset[k] + VarLength(arch));
    }
  }

  /** In whatever order they are set, every variable then reads as its own value, and nothing
      outside the slots has changed. */
  lemma {:induction false} SetVarsHold(arch: Arch, m: Mem, base: nat, content: seq<byte>, offset: map<string, nat>,
                                       variables: map<string, nat>, names: seq<string>)
    requires Slotted(arch, content, offset) && base + |content| <= TWO64 && Mapped(m, base, |content|)
    requires forall k :: k in names ==> k in offset && k in variables && variables[k] < TWO64
    requires forall i, j :: 0 <= i < j < |names| ==> names[i] != names[j]
    ensures var r := SetVars(arch, m, base, offset, variables, names);
            && VariablesOnly(arch, m, r, base, offset)
            && (forall k :: k in names ==> SlotHolds(arch, r, base + offset[k], variables[k]))
  {
    hide SlotHolds, SetVar, InSlot;
    if names != [] {
      var n := |names| - 1;
      var last, before := names[n], names[..n];
      SetVarsHold(arch, m, base, content, offset, variables, before);
      var p := SetVars(arch, m, base, offset, variables, before);
      var r := SetVar(arch, p, base + offset[last], variables[last]);
      SetVarFrame(arch, p, base + offset[last], variables[last]);
      OneSlotOnly(arch, m, p, r, base, offset, last);
      SetVarHolds(arch, p, base + offset[last], variables[last]);
      forall k | k in names ensures SlotHolds(arch, r, base + offset[k], variables[k]) {
        if k != last {
          assert k in before;
          StillHolds(arch, p, r, base + offset[k], variables[k]);
        }
      }
    }
  }

  // ---------------------------------------------------------------- what every run keeps

  /** An image of the content at e, clear of the symbol, whose compared part is unspoilt. */
  ghost predicate InPlace(arch: Arch, content: seq<byte>, n: nat, m: Mem, e: Region, s: Symbol) {
    && 0 < e.start && e.end == e.start + |content| <= TWO64
    && n * VarLength(arch) <= |content|
    && Mapped(m, e.start, |content|)
    && (forall x :: e.start <= x < e.end - n * VarLength(arch) ==> m[x] == content[x - e.start])
    && (s.addr + Span(s.size) <= e.start || e.end <= s.addr)
  }

  /** The function's bytes are the original ones, or a jump to the image in place; and
      OriginFuncCode tells which. */
  ghost predicate Injected(arch: Arch, content: seq<byte>, n: nat, m: Mem, s: Symbol, orig: seq<byte>,
                           entry: Option<Region>, code: Option<seq<byte>>, at: nat) {
    && |orig| == s.size > 0 && Mapped(m, s.addr, Span(s.size))
    && (entry.Some? ==> InPlace(arch, content, n, m, entry.value, s))
    && (code.Some? ==> && code.value == orig && at == s.addr && entry.Some?
                       && Load(m, s.addr, 16) == JumpBytes(arch, entry.value.start))
    && (code.None? ==> Load(m, s.addr, s.size) == orig)
  }

  /** Two memories that agree where the injector looks. */
  predicate Undisturbed(arch: Arch, content: seq<byte>, n: nat, m: Mem, r: Mem, s: Symbol, entry: Option<Region>) {
    && (forall x :: s.addr <= x < s.addr + Span(s.size) && x in m ==> x in r && r[x] == m[x])
    && (entry.Some? ==>
          && (forall x :: entry.value.start <= x < entry.value.end && x in m ==> x in r)
          && (forall x :: entry.value.start <= x < entry.value.end - n * VarLength(arch) && x in m ==> r[x] == m[x]))
  }

  lemma UndisturbedKeeps(arch: Arch, content: seq<byte>, n: nat, m: Mem, r: Mem, s: Symbol, orig: seq<byte>,
                         entry: Option<Region>, code: Option<seq<byte>>, at: nat)
    requires Injected(arch, content, n, m, s, orig, entry, code, at)
    requires Undisturbed(arch, content, n, m, r, s, entry)
    ensures Injected(arch, content, n, r, s, orig, entry, code, at)
  {
    hide JumpBytes;
    assert Mapped(r, s.addr, Span(s.size));
    LoadSame(m, r, s.addr, 16);
    LoadSame(m, r, s.addr, s.size);
  }

  lemma MappingKeeps(arch: Arch, content: seq<byte>, n: nat, m: Mem, writes: Mem, r: Mem, e: Region,
                     s: Symbol, orig: seq<byte>, at: nat)
    requires Injected(arch, content, n, m, s, orig, None, None, at) && Holds(m, r, writes, e, content)
    requires |content| > 0 && n * VarLength(arch) <= |content| && 0 < e.start
    ensures Injected(arch, content, n, r, s, orig, Some(e), None, at)
  {
    Apart(m, writes, s.addr, Span(s.size), e.start, |content|);
    LoadSame(m, r, s.addr, s.size);
  }

  /** Bytes mapped before and bytes new are apart. */
  lemma Apart(m: Mem, writes: Mem, a: nat, n: nat, b: nat, k: nat)
    requires Mapped(m, a, n) && Mapped(writes, b, k) && m.Keys !! writes.Keys && n > 0 && k > 0
    ensures a + n <= b || b + k <= a
  {
    var x := if a < b then b else a;
    assert a <= x < a + n ==> x in m.Keys;
    assert b <= x < b + k ==> x in writes.Keys;
  }

  lemma JumpKeeps(arch: Arch, content: seq<byte>, n: nat, m: Mem, s: Symbol, orig: seq<byte>, e: Region, at: nat)
    requires Injected(arch, content, n, m, s, orig, Some(e), None, at)
    ensures Injected(arch, content, n, Store(m, s.addr, JumpBytes(arch, e.start)), s, orig, Some(e), Some(orig), s.addr)
  {
    hide JumpBytes;
    StoreLoad(m, s.addr, JumpBytes(arch, e.start));
  }

  lemma RewriteKeeps(arch: Arch, content: seq<byte>, n: nat, m: Mem, s: Symbol, orig: seq<byte>, e: Region, at: nat)
    requires Injected(arch, content, n, m, s, orig, Some(e), Some(orig), s.addr)
    ensures Injected(arch, content, n, Store(m, s.addr, Aligned(orig)), s, orig, Some(e), None, at)
  {
    hide JumpBytes;
    var r := Store(m, s.addr, Aligned(orig));
    assert Load(r, s.addr, s.size) == orig;
  }

  lemma SetVarsKeep(arch: Arch, content: seq<byte>, offset: map<string, nat>, m: Mem, r: Mem, s: Symbol,
                    orig: seq<byte>, e: Region, code: Option<seq<byte>>, at: nat)
    requires Injected(arch, content, |offset|, m, s, orig, Some(e), code, at) && Laid(arch, content, offset)
    requires VariablesOnly(arch, m, r, e.start, offset)
    ensures Injected(arch, content, |offset|, r, s, orig, Some(e), code, at)
  {
    hide JumpBytes, Load;
    var n := |offset|;
    forall x | x in m && (s.addr <= x < s.addr + Span(s.size) || e.start <= x < e.end - n * VarLength(arch))
      ensures r[x] == m[x] {
      assert !InSlot(arch, e.start, offset, x);
    }
    assert Undisturbed(arch, content, n, m, r, s, Some(e));
    UndisturbedKeeps(arch, content, n, m, r, s, orig, Some(e), code, at);
  }

  /** The image is mapped at base, and its slots are in it. */
  ghost predicate RoomFor(arch: Arch, content: seq<byte>, offset: map<string, nat>, m: Mem, base: nat) {
    Slotted(arch, content, offset) && base + |content| <= TWO64 && Mapped(m, base, |content|)
  }

  /** Only bytes of the slots may differ. */
  ghost predicate VariablesOnly(arch: Arch, m: Mem, r: Mem, base: nat, offset: map<string, nat>) {
    && (forall x :: x in r <==> x in m)
    && (forall x :: x in m && !InSlot(arch, base, offset, x) ==> r[x] == m[x])
  }

  /** The image reads every variable as it was set, on arm64 through its slot's own pointer. */
  ghost predicate VariablesHold(arch: Arch, m: Mem, base: nat, offset: map<string, nat>, variables: map<string, nat>) {
    forall k :: k in variables ==>
      && k in offset && SlotHolds(arch, m, base + offset[k], variables[k])
      && Variable(arch, m, base + offset[k]) == Some(variables[k])
  }

  lemma NoneSet(arch: Arch, m: Mem, base: nat, offset: map<string, nat>, variables: map<string, nat>)
    ensures SetVars(arch, m, base, offset, variables, []) == m
  {}

  lemma OneMoreSet(arch: Arch, m: Mem, base: nat, content: seq<byte>, offset: map<string, nat>,
                   variables: map<string, nat>, names: seq<string>, i: nat)
    requires RoomFor(arch, content, offset, m, base) && Enumerates(names, variables) && i < |names|
    requires forall k :: k in variables ==> variables[k] < TWO64
    requires forall k :: k in names[..i] ==> k in offset
    ensures var r := SetVars(arch, m, base, offset, variables, names[..i]);
            && VariablesOnly(arch, m, r, base, offset)
            && (names[i] in offset ==>
                  && base + offset[names[i]] + VarLength(arch) <= TWO64
                  && Mapped(r, base + offset[names[i]], VarLength(arch))
                  && (forall k :: k in names[..i + 1] ==> k in offset)
                  && SetVar(arch, r, base + offset[names[i]], variables[names[i]])
                     == SetVars(arch, m, base, offset, variables, names[..i + 1]))
  {
    hide SetVar, SetVars, SlotHolds, Variable;
    SetVarsHold(arch, m, base, content, offset, variables, names[..i]);
    if names[i] in offset { SetVarsStep(arch, m, base, offset, variables, names, i); }
  }

  lemma SetVarsStep(arch: Arch, m: Mem, base: nat, offset: map<string, nat>, variables: map<string, nat>,
                    names: seq<string>, i: nat)
    requires i < |names| && names[i] in offset && names[i] in variables
    requires forall k :: k in names[..i] ==> k in offset && k in variables
    ensures forall k :: k in names[..i + 1] ==> k in offset && k in variables
    ensures SetVars(arch, m, base, offset, variables, names[..i + 1])
            == SetVar(arch, SetVars(arch, m, base, offset, variables, names[..i]),
                      base + offset[names[i]], variables[names[i]])
  {
    hide SetVar;
    assert names[..i + 1] == names[..i] + [names[i]] && names[..i + 1][..i] == names[..i];
  }

  lemma AllSet(arch: Arch, m: Mem, base: nat, content: seq<byte>, offset: map<string, nat>,
               variables: map<string, nat>, names: seq<string>)
    requires RoomFor(arch, content, offset, m, base) && Enumerates(names, variables)
    requires forall k :: k in variables ==> variables[k] < TWO64 && k in offset
    ensures var r := SetVars(arch, m, base, offset, variables, names);
            VariablesOnly(arch, m, r, base, offset) && VariablesHold(arch, r, base, offset, variables)
  {
    hide SetVar, SetVars, SlotHolds, Variable;
    SetVarsHold(arch, m, base, content, offset, variables, names);
    var r := SetVars(arch, m, base, offset, variables, names);
    forall k | k in variables
      ensures SlotHolds(arch, r, base + offset[k], variables[k]) && Variable(arch, r, base + offset[k]) == Some(variables[k]) {
      HeldIsRead(arch, r, base + offset[k], variables[k]);
    }
  }

  lemma StoredStaysMapped(m: Mem, a: nat, b: seq<byte>, x: nat, n: nat)
    ensures Mapped(m, x, n) ==> Mapped(Store(m, a, b), x, n)
  {}
}

// Linking by hand: every relocation gets a slot behind the text, and the instruction at
// its site is patched to reach that slot.
module Linker {
  import opened Int64

  datatype Arch = Amd64 | Arm64

  /** Bytes kept per variable: its value, or on arm64 a pointer and then the value. */
  function VarLength(arch: Arch): nat { if arch.Amd64? then 8 else 16 }

  datatype Rela = Rela(off: nat, addend: int, sym: string)

  // ---------------------------------------------------------------- words

  function Word(b: seq<byte>, i: nat): (w: nat)
    requires i + 4 <= |b|
    ensures w < TWO32
  {
    FromBytesBound(b[i..i + 4]);
    Pow256Values();
    FromBytes(b[i..i + 4])
  }

  function PutWord(b: seq<byte>, i: nat, w: nat): (r: seq<byte>)
    requires i + 4 <= |b|
    ensures |r| == |b|
    ensures forall k :: 0 <= k < |b| && !(i <= k < i + 4) ==> r[k] == b[k]
  {
    b[..i] + LittleEndian(w, 4) + b[i + 4..]
  }

  lemma WordPut(b: seq<byte>, i: nat, w: nat)
    requires i + 4 <= |b| && w < TWO32
    ensures Word(PutWord(b, i, w), i) == w
  {
    Pow256Values();
    ReadBack(w, 4);
    assert PutWord(b, i, w)[i..i + 4] == LittleEndian(w, 4);
  }

  lemma WordSame(b: seq<byte>, c: seq<byte>, i: nat)
    requires i + 4 <= |b| && i + 4 <= |c|
    requires forall k :: i <= k < i + 4 ==> c[k] == b[k]
    ensures Word(c, i) == Word(b, i)
  {
    assert c[i..i + 4] == b[i..i + 4];
  }

  // ---------------------------------------------------------------- the patched field

  const IMM19: int := 0x8_0000

  /** The word AssetLD writes at a site: all of it on amd64; on arm64 bits 5 to 23, the
      imm19 field of LDR (literal), with the other 13 bits kept. */
  function Field(arch: Arch, instr: nat, displacement: int): (w: nat)
    requires instr < TWO32
    ensures w < TWO32
  {
    var target := displacement % TWO32;
    if arch.Amd64? then target
    else instr / 0x100_0000 * 0x100_0000 + (target / 4 % IMM19) * 32 + instr % 32
  }

  /** The arithmetic is done on uint32 values of length, offset and addend. */
  function Displacement(slot: nat, r: Rela): int { slot - r.off + r.addend }

  function Patch(arch: Arch, content: seq<byte>, r: Rela): (c: seq<byte>)
    requires r.off + 4 <= |content|
    ensures |c| == |content|
  {
    PutWord(content, r.off, Field(arch, Word(content, r.off), Displacement(|content|, r)))
  }

  function Zeroes(n: nat): (z: seq<byte>)
    ensures |z| == n && forall k :: 0 <= k < n ==> z[k] == 0
  {
    seq(n, _ => 0)
  }

  // ---------------------------------------------------------------- what the CPU decodes

  /** The address a patched instruction loads from, when the image is mapped at base.  On
      amd64 the field ends the instruction, and rip-relative addresses count from there. */
  function LoadAddress(arch: Arch, base: nat, off: nat, word: nat): int
    requires word < TWO32
  {
    if arch.Amd64? then (base + off + 4 + (if word < TWO31 then word else word - TWO32)) % TWO64
    else
      var imm := word / 32 % IMM19;
      (base + off + 4 * (if imm < IMM19 / 2 then imm else imm - IMM19)) % TWO64
  }

  /** The relocation kinds the images use: R_X86_64_PC32 with addend -4 against a field
      at the end of its instruction, and R_AARCH64_GOT_LD_PREL19 with addend 0. */
  predicate Reaches(arch: Arch, slot: nat, r: Rela) {
    var d := Displacement(slot, r);
    if arch.Amd64? then r.addend == -4 && -TWO31 <= d < TWO31
    else r.addend == 0 && d % 4 == 0 && -4 * (IMM19 / 2) <= d < 4 * (IMM19 / 2)
  }

  lemma ImmField(instr: nat, imm: nat)
    requires instr < TWO32 && imm < IMM19
    ensures var w := instr / 0x100_0000 * 0x100_0000 + imm * 32 + instr % 32;
            w < TWO32 && w / 32 % IMM19 == imm && w % 32 == instr % 32 && w / 0x100_0000 == instr / 0x100_0000
  {
    var hi, lo := instr / 0x100_0000, instr % 32;
    var w := hi * 0x100_0000 + imm * 32 + lo;
    assert w == 32 * (hi * IMM19 + imm) + lo;
    assert w / 32 == hi * IMM19 + imm;
  }

  lemma Quarter(d: int)
    requires d % 4 == 0 && -4 * (IMM19 / 2) <= d < 4 * (IMM19 / 2)
    ensures var imm := d % TWO32 / 4 % IMM19; d == 4 * (if imm < IMM19 / 2 then imm else imm - IMM19)
  {
    var q := d / 4;
    assert d == 4 * q;
    if q >= 0 {
      assert d % TWO32 == d;
    } else {
      assert d % TWO32 == d + TWO32;
      assert (d + TWO32) / 4 == q + 0x4000_0000;
    }
  }

  /** A patched instruction loads from the slot, wherever the image is mapped. */
  lemma PatchedLoadsSlot(arch: Arch, base: nat, slot: nat, r: Rela, instr: nat)
    requires instr < TWO32 && Reaches(arch, slot, r)
    ensures LoadAddress(arch, base, r.off, Field(arch, instr, Displacement(slot, r))) == (base + slot) % TWO64
  {
    var d := Displacement(slot, r);
    if arch.Arm64? {
      ImmField(instr, d % TWO32 / 4 % IMM19);
      Quarter(d);
    } else {
      assert if d >= 0 then d % TWO32 == d else d % TWO32 == d + TWO32;
    }
  }

  /** The field holds the displacement's low bits: all 32 on amd64, and from the third on in
      arm64's immediate. */
  lemma FieldHolds(arch: Arch, instr: nat, displacement: int)
    requires instr < TWO32
    ensures var w, d := Field(arch, instr, displacement), displacement % TWO32;
            if arch.Amd64? then w == d else w / 32 % 0x8_0000 == d / 4 % 0x8_0000
  {
    if arch.Arm64? { ImmField(instr, displacement % TWO32 / 4 % IMM19); }
  }

  /** The other bits of an arm64 instruction survive. */
  lemma PatchKeepsInstruction(instr: nat, displacement: int)
    requires instr < TWO32
    ensures var w := Field(Arm64, instr, displacement);
            w % 32 == instr % 32 && w / 0x100_0000 == instr / 0x100_0000
  {
    ImmField(instr, displacement % TWO32 / 4 % IMM19);
  }

  // ---------------------------------------------------------------- the loop

  datatype Option<+T> = None | Some(value: T)

  /** The content after the relocations, or None where a site lies outside it. */
  function Linked(arch: Arch, text: seq<byte>, rels: seq<Rela>): Option<seq<byte>> {
    if rels == [] then Some(text)
    else
      var r := rels[|rels| - 1];
      match Linked(arch, text, rels[..|rels| - 1])
      case None => None
      case Some(c) => if r.off + 4 <= |c| then Some(Patch(arch, c, r) + Zeroes(VarLength(arch))) else None
  }

  /** Where the i-th relocation's variable is kept. */
  function Slot(arch: Arch, text: seq<byte>, i: nat): nat { |text| + i * VarLength(arch) }

  function Offsets(arch: Arch, text: seq<byte>, rels: seq<Rela>): map<string, nat> {
    if rels == [] then map[]
    else
      var n := |rels| - 1;
      Offsets(arch, text, rels[..n])[rels[n].sym := Slot(arch, text, n)]
  }

  lemma {:induction false} LinkedLength(arch: Arch, text: seq<byte>, rels: seq<Rela>)
    ensures Linked(arch, text, rels).Some? ==> |Linked(arch, text, rels).value| == Slot(arch, text, |rels|)
  {
    hide Patch;
    if rels != [] {
      var n := |rels| - 1;
      LinkedLength(arch, text, rels[..n]);
      assert Slot(arch, text, n + 1) == Slot(arch, text, n) + VarLength(arch);
    }
  }

  /** An entry of .rela.text, with its symbol still a number. */
  datatype Entry = Entry(off: nat, addend: int, symNo: nat)

  /** The first n entries that name a symbol; the others are skipped. */
  function Resolved(entries: seq<Entry>, syms: seq<string>, n: nat): (rels: seq<Rela>)
    requires n <= |entries|
    ensures |rels| <= n
  {
    if n == 0 then []
    else
      var e := entries[n - 1];
      var before := Resolved(entries, syms, n - 1);
      if e.symNo == 0 || e.symNo > |syms| then before
      else before + [Rela(e.off, e.addend, syms[e.symNo - 1])]
  }

  /** In order, exactly the entries among the first n whose symbol number is one of the table's,
      counted from one. */
  ghost predicate Naming(named: seq<nat>, entries: seq<Entry>, syms: seq<string>, n: nat) {
    && n <= |entries|
    && (forall i, j :: 0 <= i < j < |named| ==> named[i] < named[j])
    && (forall j :: 0 <= j < |named| ==> named[j] < n && 1 <= entries[named[j]].symNo <= |syms|)
    && (forall k: nat :: k < n && 1 <= entries[k].symNo <= |syms| ==> k in named)
  }

  /** The relocations are those entries, in that order; each keeps its site and its addend, and
      has the symbol of its number. */
  ghost predicate Corresponds(rels: seq<Rela>, named: seq<nat>, entries: seq<Entry>, syms: seq<string>, n: nat) {
    && Naming(named, entries, syms, n) && |named| == |rels|
    && forall j :: 0 <= j < |named| ==>
         rels[j] == Rela(entries[named[j]].off, entries[named[j]].addend, syms[entries[named[j]].symNo - 1])
  }

  lemma {:induction false} ResolvedAre(entries: seq<Entry>, syms: seq<string>, n: nat) returns (named: seq<nat>)
    requires n <= |entries|
    ensures Corresponds(Resolved(entries, syms, n), named, entries, syms, n)
  {
    hide Corresponds, Resolved;
    if n == 0 {
      NoneNamed(entries, syms);
      return [];
    }
    named := ResolvedAre(entries, syms, n - 1);
    ResolvedStep(entries, syms, n - 1);
    var before := Resolved(entries, syms, n - 1);
    if 1 <= entries[n - 1].symNo <= |syms| {
      OneMoreNamed(named, before, entries, syms, n - 1);
      named := named + [n - 1];
    } else {
      NoMoreNamed(named, before, entries, syms, n - 1);
    }
  }

  lemma NoneNamed(entries: seq<Entry>, syms: seq<string>)
    ensures Corresponds(Resolved(entries, syms, 0), [], entries, syms, 0)
  {}

  lemma OneMoreNamed(named: seq<nat>, before: seq<Rela>, entries: seq<Entry>, syms: seq<string>, n: nat)
    requires n < |entries| && Corresponds(before, named, entries, syms, n) && 1 <= entries[n].symNo <= |syms|
    ensures Corresponds(before + [Rela(entries[n].off, entries[n].addend, syms[entries[n].symNo - 1])],
                        named + [n], entries, syms, n + 1)
  {
    var more := named + [n];
    assert more[|named|] == n;
    assert forall j :: 0 <= j < |named| ==> more[j] == named[j];
  }

  lemma ResolvedStep(entries: seq<Entry>, syms: seq<string>, n: nat)
    requires n < |entries|
    ensures var e, before := entries[n], Resolved(entries, syms, n);
            Resolved(entries, syms, n + 1)
            == if 1 <= e.symNo <= |syms| then before + [Rela(e.off, e.addend, syms[e.symNo - 1])] else before
  {}

  lemma NoMoreNamed(named: seq<nat>, before: seq<Rela>, entries: seq<Entry>, syms: seq<string>, n: nat)
    requires n < |entries| && Corresponds(before, named, entries, syms, n) && !(1 <= entries[n].symNo <= |syms|)
    ensures Corresponds(before, named, entries, syms, n + 1)
  {}

  /** The j-th entry that names a symbol has the j-th slot of eight bytes, or sixteen, behind the
      text; and if no later one names the same symbol the name table leads there. */
  ghost predicate Tabled(arch: Arch, table: map<string, nat>, text: seq<byte>, size: nat, named: seq<nat>,
                         entries: seq<Entry>, syms: seq<string>) {
    var bytes := if arch.Amd64? then 8 else 16;
    && Naming(named, entries, syms, |entries|) && size == |text| + |named| * bytes
    && forall j :: 0 <= j < |named| ==>
         var name := syms[entries[named[j]].symNo - 1];
         name in table
         && ((forall l :: j < l < |named| ==> syms[entries[named[l]].symNo - 1] != name) ==> table[name] == |text| + j * bytes)
  }

  lemma TableOf(arch: Arch, text: seq<byte>, entries: seq<Entry>, syms: seq<string>) returns (named: seq<nat>)
    ensures var rels := Resolved(entries, syms, |entries|);
            Tabled(arch, Offsets(arch, text, rels), text, Slot(arch, text, |rels|), named, entries, syms)
  {
    hide Offsets;
    var rels := Resolved(entries, syms, |entries|);
    named := ResolvedAre(entries, syms, |entries|);
    forall j | 0 <= j < |named|
      ensures rels[j].sym in Offsets(arch, text, rels)
      ensures (forall l :: j < l < |named| ==> rels[l].sym != rels[j].sym) ==>
                Offsets(arch, text, rels)[rels[j].sym] == Slot(arch, text, j) {
      OffsetIsLastSlot(arch, text, rels, j);
    }
  }

  lemma NothingLinked(arch: Arch, text: seq<byte>, entries: seq<Entry>, syms: seq<string>)
    ensures Linked(arch, text, Resolved(entries, syms, 0)) == Some(text) && Offsets(arch, text, Resolved(entries, syms, 0)) == map[]
  {}

  lemma TabledNames(arch: Arch, text: seq<byte>, named: seq<nat>, entries: seq<Entry>, syms: seq<string>)
    requires var rels := Resolved(entries, syms, |entries|);
             Tabled(arch, Offsets(arch, text, rels), text, Slot(arch, text, |rels|), named, entries, syms)
    ensures Naming(named, entries, syms, |entries|)
  {}

  lemma LinkedStep(arch: Arch, text: seq<byte>, rels: seq<Rela>, r: Rela)
    ensures Linked(arch, text, rels).Some? ==>
              var c := Linked(arch, text, rels).value;
              Linked(arch, text, rels + [r]) ==
                if r.off + 4 <= |c| then Some(Patch(arch, c, r) + Zeroes(VarLength(arch))) else None
    ensures Offsets(arch, text, rels + [r]) == Offsets(arch, text, rels)[r.sym := Slot(arch, text, |rels|)]
  {
    assert (rels + [r])[..|rels|] == rels;
  }

  /** The image under construction. */
  class Image {
    const arch: Arch
    var content: seq<byte>
    var offset: map<string, nat>

    constructor (arch: Arch, text: seq<byte>)
      ensures this.arch == arch && content == text && offset == map[]
    {
      this.arch, content, offset := arch, text, map[];
    }

    /** One relocation.  It fails, as a slice out of range does, if the site is outside. */
    method AssetLD(r: Rela) returns (ok: bool)
      modifies this
      ensures ok <==> r.off + 4 <= |old(content)|
      ensures ok ==> content == Patch(arch, old(content), r) + Zeroes(VarLength(arch))
      ensures offset == old(offset)[r.sym := |old(content)|]
    {
      offset := offset[r.sym := |content|];
      if r.off + 4 > |content| { return false; }
      var target := Displacement(|content|, r) % TWO32;
      if arch.Amd64? {
        content := PutWord(content, r.off, target);
      } else {
        var instr := Word(content, r.off);
        instr := instr / 0x100_0000 * 0x100_0000 + (target / 4 % IMM19) * 32 + instr % 32;
        content := PutWord(content, r.off, instr);
      }
      content := content + Zeroes(VarLength(arch));
      return true;
    }

    /** The loop over the relocation section.  Entries whose symbol number is none of the
        table's are skipped; the j-th of the others has the j-th slot behind the text, and if no
        later one names the same symbol the name table leads there. */
    method Load(entries: seq<Entry>, syms: seq<string>) returns (ok: bool, ghost named: seq<nat>)
      requires offset == map[]
      modifies this
      ensures var rels := Resolved(entries, syms, |entries|);
              ok ==> Linked(arch, old(content), rels) == Some(content) && offset == Offsets(arch, old(content), rels)
      ensures !ok ==> exists n :: 0 <= n <= |entries|
                        && Linked(arch, old(content), Resolved(entries, syms, n)).None?
      ensures Naming(named, entries, syms, |entries|)
      ensures ok ==> Tabled(arch, offset, old(content), |content|, named, entries, syms)
    {
      hide Patch, Tabled, Naming, Linked, Offsets, Slot, Resolved;
      NothingLinked(arch, content, entries, syms);
      named := TableOf(arch, content, entries, syms);
      TabledNames(arch, content, named, entries, syms);
      ghost var text := content;
      for n := 0 to |entries|
        invariant Linked(arch, text, Resolved(entries, syms, n)) == Some(content)
        invariant offset == Offsets(arch, text, Resolved(entries, syms, n))
      {
        var e := entries[n];
        ghost var before := Resolved(entries, syms, n);
        ResolvedStep(entries, syms, n);
        if e.symNo == 0 || e.symNo > |syms| { continue; }
        var r := Rela(e.off, e.addend, syms[e.symNo - 1]);
        LinkedStep(arch, text, before, r);
        LinkedLength(arch, text, before);
        var fits := AssetLD(r);
        if !fits {
          ok := false;
          return;
        }
      }
      LinkedLength(arch, text, Resolved(entries, syms, |entries|));
      ok := true;
    }
  }

  // ---------------------------------------------------------------- what linking gives

  /** Every site lies in the text, and no two overlap. */
  predicate Sites(text: seq<byte>, rels: seq<Rela>) {
    && (forall i :: 0 <= i < |rels| ==> rels[i].off + 4 <= |text|)
    && (forall i, j :: 0 <= i < j < |rels| ==>
          rels[i].off + 4 <= rels[j].off || rels[j].off + 4 <= rels[i].off)
  }

  predicate Patched(rels: seq<Rela>, k: nat) {
    exists i :: 0 <= i < |rels| && rels[i].off <= k < rels[i].off + 4
  }

  /** What the linked image holds, byte by byte and field by field. */
  ghost predicate LinkedTo(arch: Arch, text: seq<byte>, rels: seq<Rela>, c: seq<byte>) {
    && |c| == Slot(arch, text, |rels|)
    && (forall k :: 0 <= k < |text| && !Patched(rels, k) ==> c[k] == text[k])
    && (forall k :: |text| <= k < |c| ==> c[k] == 0)
    && (forall i :: 0 <= i < |rels| ==>
          && rels[i].off + 4 <= |text|
          && Word(c, rels[i].off)
             == Field(arch, Word(text, rels[i].off), Displacement(Slot(arch, text, i), rels[i])))
  }

  lemma PatchedMore(rels: seq<Rela>, r: Rela, k: nat)
    ensures Patched(rels, k) ==> Patched(rels + [r], k)
  {
    var rs := rels + [r];
    assert forall i :: 0 <= i < |rels| ==> rs[i] == rels[i];
  }

  lemma SiteUnpatched(text: seq<byte>, rels: seq<Rela>, r: Rela, k: nat)
    requires Sites(text, rels + [r]) && r.off <= k < r.off + 4
    ensures !Patched(rels, k)
  {
    var rs := rels + [r];
    forall j | 0 <= j < |rels| ensures !(rels[j].off <= k < rels[j].off + 4) {
      assert rs[j] == rels[j] && rs[|rels|] == r;
    }
  }

  lemma LinkOne(arch: Arch, text: seq<byte>, rels: seq<Rela>, c: seq<byte>, r: Rela)
    requires Sites(text, rels + [r]) && LinkedTo(arch, text, rels, c) && r.off + 4 <= |c|
    ensures LinkedTo(arch, text, rels + [r], Patch(arch, c, r) + Zeroes(VarLength(arch)))
  {
    hide Field, PutWord, FromBytes;
    var rs := rels + [r];
    var p := Patch(arch, c, r);
    var d := p + Zeroes(VarLength(arch));
    assert rs[|rels|] == r;
    PatchFrame(arch, c, r);
    forall k | 0 <= k < |text| && !Patched(rs, k) ensures d[k] == text[k] {
      assert !(r.off <= k < r.off + 4);
      PatchedMore(rels, r, k);
    }
    forall i | 0 <= i < |rs|
      ensures rs[i].off + 4 <= |text|
              && Word(d, rs[i].off) == Field(arch, Word(text, rs[i].off), Displacement(Slot(arch, text, i), rs[i]))
    {
      if i < |rels| {
        assert rs[i] == rels[i];
        WordSame(c, d, rs[i].off);
      } else {
        assert Word(c, r.off) == Word(text, r.off) by {
          forall k | r.off <= k < r.off + 4 ensures c[k] == text[k] {
            SiteUnpatched(text, rels, r, k);
          }
          WordSame(text, c, r.off);
        }
        WordSame(p, d, r.off);
      }
    }
  }

  lemma PatchFrame(arch: Arch, c: seq<byte>, r: Rela)
    requires r.off + 4 <= |c|
    ensures var p := Patch(arch, c, r);
            && (forall k :: 0 <= k < |c| && !(r.off <= k < r.off + 4) ==> p[k] == c[k])
            && Word(p, r.off) == Field(arch, Word(c, r.off), Displacement(|c|, r))
  {
    WordPut(c, r.off, Field(arch, Word(c, r.off), Displacement(|c|, r)));
  }

  /** Linking well-placed sites succeeds, changes nothing in the text but their fields, and
      gives each its own slot of zeroes behind the text. */
  lemma {:induction false} LinkingFrame(arch: Arch, text: seq<byte>, rels: seq<Rela>)
    requires Sites(text, rels)
    ensures Linked(arch, text, rels).Some? && LinkedTo(arch, text, rels, Linked(arch, text, rels).value)
  {
    if rels != [] {
      var before := rels[..|rels| - 1];
      assert rels == before + [rels[|rels| - 1]];
      LinkingFrame(arch, text, before);
      LinkOne(arch, text, before, Linked(arch, text, before).value, rels[|rels| - 1]);
    }
  }

  /** The name table holds, for every symbol, the slot of its last relocation. */
  lemma {:induction false} OffsetIsLastSlot(arch: Arch, text: seq<byte>, rels: seq<Rela>, i: nat)
    requires i < |rels|
    ensures rels[i].sym in Offsets(arch, text, rels)
    ensures Offsets(arch, text, rels)[rels[i].sym] == Slot(arch, text, i)
            <==> forall j :: i < j < |rels| ==> rels[j].sym != rels[i].sym
  {
    var n := |rels| - 1;
    var before := rels[..n];
    if i < n {
      OffsetIsLastSlot(arch, text, before, i);
      if rels[n].sym != rels[i].sym {
        assert (forall j :: i < j < n ==> before[j].sym != before[i].sym)
               <==> (forall j :: i < j < |rels| ==> rels[j].sym != rels[i].sym);
      } else {
        assert Slot(arch, text, n) != Slot(arch, text, i) by { assert n * VarLength(arch) != i * VarLength(arch); }
      }
    }
  }

  /** The linker's promise.  Mapped at any base, every patched instruction whose
      displacement fits loads from its own slot, and setting a variable by name sets the slot
      its instruction loads from exactly when no later relocation has the same symbol. */
  lemma LinkingReaches(arch: Arch, text: seq<byte>, rels: seq<Rela>, base: nat, i: nat)
    requires Sites(text, rels) && i < |rels| && Reaches(arch, Slot(arch, text, i), rels[i])
    ensures Linked(arch, text, rels).Some?
    ensures var c := Linked(arch, text, rels).value;
            && rels[i].off + 4 <= |c|
            && LoadAddress(arch, base, rels[i].off, Word(c, rels[i].off)) == (base + Slot(arch, text, i)) % TWO64
            && |text| <= Slot(arch, text, i) && Slot(arch, text, i) + VarLength(arch) <= |c|
    ensures rels[i].sym in Offsets(arch, text, rels)
    ensures Offsets(arch, text, rels)[rels[i].sym] == Slot(arch, text, i)
            <==> forall j :: i < j < |rels| ==> rels[j].sym != rels[i].sym
  {
    hide Word, Field, LoadAddress, Reaches, Linked, Offsets;
    LinkingFrame(arch, text, rels);
    PatchedLoadsSlot(arch, base, Slot(arch, text, i), rels[i], Word(text, rels[i].off));
    OffsetIsLastSlot(arch, text, rels, i);
    assert (i + 1) * VarLength(arch) <= |rels| * VarLength(arch);
  }

  lemma SlotsDisjoint(arch: Arch, text: seq<byte>, i: nat, j: nat)
    requires i < j
    ensures Slot(arch, text, i) + VarLength(arch) <= Slot(arch, text, j)
  {
    assert (i + 1) * VarLength(arch) <= j * VarLength(arch);
  }
}

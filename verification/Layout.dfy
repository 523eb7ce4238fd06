// Where the linker puts the variables, and when the injector recognises an image whose
// variables are set.
module Layouts {
  import opened Int64
  import opened Memory
  import opened Linker
  import opened Tracee
  import opened Injection
  import opened FakeImages

  predicate Distinct(rels: seq<Rela>) {
    forall i, j :: 0 <= i < j < |rels| ==> rels[i].sym != rels[j].sym
  }

  predicate Relocated(rels: seq<Rela>, k: string) {
    exists i :: 0 <= i < |rels| && rels[i].sym == k
  }

  lemma RelocatedMore(rels: seq<Rela>, r: Rela, k: string)
    ensures Relocated(rels + [r], k) <==> Relocated(rels, k) || k == r.sym
  {
    var more := rels + [r];
    assert more[|rels|] == r;
    assert forall i :: 0 <= i < |rels| ==> more[i] == rels[i];
  }

  /** With distinct symbols the table names each once, with its own slot. */
  lemma {:induction false} DistinctOffsets(arch: Arch, text: seq<byte>, rels: seq<Rela>)
    requires Distinct(rels)
    ensures var o := Offsets(arch, text, rels);
            && |o| == |rels|
            && (forall k :: k in o <==> Relocated(rels, k))
            && (forall i :: 0 <= i < |rels| ==> rels[i].sym in o && o[rels[i].sym] == Slot(arch, text, i))
  {
    if rels != [] {
      hide Slot, Relocated, Offsets, Distinct, Linked, Patch;
      var n := |rels| - 1;
      var before := rels[..n];
      OnlyLast(rels);
      DistinctOffsets(arch, text, before);
      assert rels == before + [rels[n]];
      LinkedStep(arch, text, before, rels[n]);
      forall i | 0 <= i < n ensures Relocated(before, rels[i].sym) { assert before[i] == rels[i]; }
      forall k ensures k in Offsets(arch, text, rels) <==> Relocated(rels, k) { RelocatedMore(before, rels[n], k); }
      assert forall i :: 0 <= i < n ==> before[i] == rels[i];
    }
  }

  lemma OnlyLast(rels: seq<Rela>)
    requires rels != [] && Distinct(rels)
    ensures Distinct(rels[..|rels| - 1]) && !Relocated(rels[..|rels| - 1], rels[|rels| - 1].sym)
  {
    var before := rels[..|rels| - 1];
    assert forall i :: 0 <= i < |before| ==> before[i] == rels[i];
  }

  // ---------------------------------------------------------------- slots of a linked image

  ghost predicate LastOf(rels: seq<Rela>, k: string, i: nat) {
    && i < |rels| && rels[i].sym == k
    && forall j :: i < j < |rels| ==> rels[j].sym != k
  }

  lemma {:induction false} HasLast(rels: seq<Rela>, k: string) returns (i: nat)
    requires Relocated(rels, k)
    ensures LastOf(rels, k, i)
  {
    var n := |rels| - 1;
    if rels[n].sym == k {
      i := n;
    } else {
      var before := rels[..n];
      assert rels == before + [rels[n]];
      RelocatedMore(before, rels[n], k);
      i := HasLast(before, k);
    }
  }

  lemma {:induction false} OffsetsNamed(arch: Arch, text: seq<byte>, rels: seq<Rela>, k: string)
    ensures k in Offsets(arch, text, rels) <==> Relocated(rels, k)
  {
    if rels != [] {
      var n := |rels| - 1;
      var before := rels[..n];
      OffsetsNamed(arch, text, before, k);
      assert rels == before + [rels[n]];
      RelocatedMore(before, rels[n], k);
    }
  }

  /** The table has a symbol's last slot. */
  lemma OffsetAtLast(arch: Arch, text: seq<byte>, rels: seq<Rela>, k: string, i: nat)
    requires LastOf(rels, k, i)
    ensures k in Offsets(arch, text, rels) && Offsets(arch, text, rels)[k] == Slot(arch, text, i)
  {
    OffsetIsLastSlot(arch, text, rels, i);
  }

  /** A linked image has a slot of its own for every symbol, whatever the relocations. */
  lemma LinkedIsSlotted(arch: Arch, text: seq<byte>, rels: seq<Rela>)
    requires |text| > 0 && Linked(arch, text, rels).Some?
    ensures Slotted(arch, Linked(arch, text, rels).value, Offsets(arch, text, rels))
  {
    hide Linked, Offsets, LastOf, Slot;
    var c, o := Linked(arch, text, rels).value, Offsets(arch, text, rels);
    LinkedLength(arch, text, rels);
    assert |c| > 0 by { SlotBounds(arch, text, 0, |rels|); }
    forall k | k in o ensures o[k] + VarLength(arch) <= |c| {
      OffsetsNamed(arch, text, rels, k);
      var i := HasLast(rels, k);
      OffsetAtLast(arch, text, rels, k, i);
      LastIsHere(rels, k, i);
      SlotBounds(arch, text, i, |rels|);
    }
    forall j, k | j in o && k in o && j != k
      ensures o[j] + VarLength(arch) <= o[k] || o[k] + VarLength(arch) <= o[j] {
      OffsetsNamed(arch, text, rels, j);
      OffsetsNamed(arch, text, rels, k);
      var a := HasLast(rels, j);
      var b := HasLast(rels, k);
      OffsetAtLast(arch, text, rels, j, a);
      OffsetAtLast(arch, text, rels, k, b);
      LastIsHere(rels, j, a);
      LastIsHere(rels, k, b);
      if a < b { SlotBounds(arch, text, a, b); } else { SlotBounds(arch, text, b, a); }
    }
  }

  lemma LastIsHere(rels: seq<Rela>, k: string, i: nat)
    requires LastOf(rels, k, i)
    ensures i < |rels| && rels[i].sym == k
  {}

  lemma SlotBounds(arch: Arch, text: seq<byte>, i: nat, j: nat)
    ensures i < j ==> Slot(arch, text, i) + VarLength(arch) <= Slot(arch, text, j)
    ensures |text| <= Slot(arch, text, i)
    ensures i <= j <==> Slot(arch, text, i) <= Slot(arch, text, j)
  {
    if i < j { SlotsDisjoint(arch, text, i, j); } else if j < i { SlotsDisjoint(arch, text, j, i); }
  }

  // ---------------------------------------------------------------- the exact condition

  function Syms(rels: seq<Rela>): (t: set<string>)
    ensures forall k :: k in t <==> Relocated(rels, k)
  {
    set i | 0 <= i < |rels| :: rels[i].sym
  }

  /** As many symbols as relocations means that none is repeated. */
  lemma {:induction false} CountSyms(rels: seq<Rela>)
    ensures |Syms(rels)| <= |rels|
    ensures |Syms(rels)| == |rels| <==> Distinct(rels)
  {
    if rels == [] {
      assert Syms(rels) == {};
    } else {
      hide Distinct, Relocated;
      var n := |rels| - 1;
      var before := rels[..n];
      CountSyms(before);
      assert rels == before + [rels[n]];
      forall k ensures k in Syms(rels) <==> k in Syms(before) + {rels[n].sym} { RelocatedMore(before, rels[n], k); }
      assert Syms(rels) == Syms(before) + {rels[n].sym};
      DistinctMore(before, rels[n]);
    }
  }

  lemma DistinctMore(rels: seq<Rela>, r: Rela)
    ensures Distinct(rels + [r]) <==> Distinct(rels) && !Relocated(rels, r.sym)
  {
    var more := rels + [r];
    assert more[|rels|] == r;
    assert forall i :: 0 <= i < |rels| ==> more[i] == rels[i];
  }

  lemma OffsetsCount(arch: Arch, text: seq<byte>, rels: seq<Rela>)
    ensures Offsets(arch, text, rels).Keys == Syms(rels)
    ensures |Offsets(arch, text, rels)| == |Syms(rels)| <= |rels|
  {
    hide Offsets, Relocated, Syms;
    forall k ensures k in Offsets(arch, text, rels) <==> k in Syms(rels) { OffsetsNamed(arch, text, rels, k); }
    assert Offsets(arch, text, rels).Keys == Syms(rels);
    CountSyms(rels);
  }

  /** The last relocations, as many as there are symbols. */
  function LastRels(rels: seq<Rela>): (r: seq<Rela>) {
    var n := |Syms(rels)|;
    if n <= |rels| then rels[|rels| - n..] else rels
  }

  lemma LaterHas(rels: seq<Rela>, n: nat, k: string, i: nat)
    requires n <= |rels| && LastOf(rels, k, i)
    ensures Relocated(rels[|rels| - n..], k) <==> i >= |rels| - n
  {
    var t := rels[|rels| - n..];
    if i >= |rels| - n { assert t[i - (|rels| - n)].sym == k; }
    if Relocated(t, k) {
      var j :| 0 <= j < |t| && t[j].sym == k;
      assert rels[j + (|rels| - n)].sym == k;
    }
  }

  /** If every symbol is among the last n, and there are n, none of those is repeated; and the
      other way round. */
  lemma AllAmongLast(rels: seq<Rela>)
    ensures Distinct(LastRels(rels)) <==> forall k :: Relocated(rels, k) ==> Relocated(LastRels(rels), k)
  {
    hide Relocated, Distinct;
    CountSyms(rels);
    var t := LastRels(rels);
    CountSyms(t);
    forall k | Relocated(t, k) ensures Relocated(rels, k) { TailHas(rels, |rels| - |t|, k); }
    assert Syms(t) <= Syms(rels);
    if forall k :: Relocated(rels, k) ==> Relocated(t, k) {
      assert Syms(t) == Syms(rels);
    }
    if Distinct(t) {
      SameSize(Syms(t), Syms(rels));
    }
  }

  lemma TailHas(rels: seq<Rela>, from: nat, k: string)
    requires from <= |rels| && Relocated(rels[from..], k)
    ensures Relocated(rels, k)
  {
    var t := rels[from..];
    var j :| 0 <= j < |t| && t[j].sym == k;
    assert rels[from + j].sym == k;
  }

  lemma SameSize(a: set<string>, b: set<string>)
    requires a <= b && |a| == |b|
    ensures a == b
  {
    assert b == a + (b - a);
    assert |b| == |a| + |b - a|;
    assert b - a == {};
  }

  /** The linked image leaves its slots where the injector counts on if and only if the last
      relocations, as many as there are symbols, have distinct symbols. */
  lemma LinkerLays(arch: Arch, text: seq<byte>, rels: seq<Rela>)
    requires |text| > 0 && Linked(arch, text, rels).Some?
    ensures Laid(arch, Linked(arch, text, rels).value, Offsets(arch, text, rels)) <==> Distinct(LastRels(rels))
  {
    hide Linked, Offsets, Slot, Distinct, Relocated, LastOf, Slotted, LastRels;
    var c, o := Linked(arch, text, rels).value, Offsets(arch, text, rels);
    LinkedLength(arch, text, rels);
    LinkedIsSlotted(arch, text, rels);
    OffsetsCount(arch, text, rels);
    AllAmongLast(rels);
    assert |c| - |o| * VarLength(arch) == Slot(arch, text, |rels| - |o|) by { SlotDifference(arch, text, |rels|, |o|); }
    SlotBounds(arch, text, |rels| - |o|, |rels|);
    forall k | k in o
      ensures Relocated(rels, k)
      ensures Slot(arch, text, |rels| - |o|) <= o[k] <==> Relocated(LastRels(rels), k) {
      OffsetsNamed(arch, text, rels, k);
      var i := HasLast(rels, k);
      OffsetAtLast(arch, text, rels, k, i);
      LaterHas(rels, |o|, k, i);
      LastRelsIs(rels);
      SlotBounds(arch, text, |rels| - |o|, i);
    }
    forall k | Relocated(rels, k) ensures k in o { OffsetsNamed(arch, text, rels, k); }
  }

  lemma LastRelsIs(rels: seq<Rela>)
    ensures |Syms(rels)| <= |rels| && LastRels(rels) == rels[|rels| - |Syms(rels)|..]
  {
    CountSyms(rels);
  }

  lemma SlotDifference(arch: Arch, text: seq<byte>, i: nat, n: nat)
    requires n <= i
    ensures Slot(arch, text, i) - n * VarLength(arch) == Slot(arch, text, i - n)
  {}

  /** Distinct symbols are enough. */
  lemma DistinctLays(arch: Arch, text: seq<byte>, rels: seq<Rela>)
    requires |text| > 0 && Linked(arch, text, rels).Some? && Distinct(rels)
    ensures Laid(arch, Linked(arch, text, rels).value, Offsets(arch, text, rels))
  {
    hide Linked, Offsets, Laid;
    CountSyms(rels);
    assert LastRels(rels) == rels;
    LinkerLays(arch, text, rels);
  }

  // ---------------------------------------------------------------- when a set image is recognised

  /** An image at base, as linked outside its slots. */
  ghost predicate Loaded(arch: Arch, content: seq<byte>, offset: map<string, nat>, m: Mem, base: nat) {
    && base + |content| <= TWO64 && Mapped(m, base, |content|)
    && forall x :: base <= x < base + |content| && !InSlot(arch, base, offset, x) ==> m[x] == content[x - base]
  }

  /** An image all of whose variables are set. */
  ghost predicate AllSetAt(arch: Arch, content: seq<byte>, offset: map<string, nat>, m: Mem, base: nat, variables: map<string, nat>) {
    && Loaded(arch, content, offset, m, base) && variables.Keys == offset.Keys
    && (forall k :: k in variables ==> variables[k] < TWO64)
    && VariablesHold(arch, m, base, offset, variables)
  }

  lemma LaidIsRecognised(arch: Arch, content: seq<byte>, offset: map<string, nat>, m: Mem, base: nat)
    requires Laid(arch, content, offset) && Loaded(arch, content, offset, m, base)
    ensures Recognised(arch, content, m, base, |offset|)
  {
    forall x | base <= x < base + |content| - |offset| * VarLength(arch) ensures m[x] == content[x - base] {
      assert !InSlot(arch, base, offset, x);
    }
  }

  lemma {:induction false} Listed(offset: map<string, nat>, keys: set<string>) returns (names: seq<string>)
    requires keys <= offset.Keys
    ensures (forall k :: k in names <==> k in keys) && forall i, j :: 0 <= i < j < |names| ==> names[i] != names[j]
    decreases |keys|
  {
    if keys == {} {
      names := [];
    } else {
      SomeKey(keys);
      var k :| k in keys;
      names := Listed(offset, keys - {k});
      names := names + [k];
    }
  }

  lemma SomeKey(s: set<string>)
    ensures s == {} || exists t :: t in s
  {
    if forall t :: t !in s { assert s == {}; }
  }

  lemma LowByte(b: seq<byte>)
    requires |b| > 0
    ensures FromBytes(b) % 256 == b[0] as nat
  {}

  /** Every image can be set, anywhere. */
  lemma SetEverything(arch: Arch, content: seq<byte>, offset: map<string, nat>, base: nat, v: nat)
    returns (m: Mem, variables: map<string, nat>)
    requires Slotted(arch, content, offset) && base + |content| <= TWO64 && v < TWO64
    ensures AllSetAt(arch, content, offset, m, base, variables)
    ensures forall k :: k in variables ==> variables[k] == v
  {
    hide Slotted, SetVars, VariablesHold, Store;
    variables := map j | j in offset :: v;
    var names := Listed(offset, offset.Keys);
    var blank := Store(map[], base, content);
    Blank(content, base);
    AllSet(arch, blank, base, content, offset, variables, names);
    m := SetVars(arch, blank, base, offset, variables, names);
  }

  lemma Blank(content: seq<byte>, base: nat)
    ensures var m := Store(map[], base, content);
            Mapped(m, base, |content|) && forall x :: base <= x < base + |content| ==> m[x] == content[x - base]
  {}

  lemma EarlyKey(arch: Arch, content: seq<byte>, offset: map<string, nat>) returns (k: string)
    requires Slotted(arch, content, offset) && |offset| * VarLength(arch) <= |content| && !Laid(arch, content, offset)
    ensures k in offset && offset[k] < |content| - |offset| * VarLength(arch)
  {
    k :| k in offset && offset[k] < |content| - |offset| * VarLength(arch);
  }

  /** Some setting of the variables hides an image whose slot lies in the compared part. */
  lemma UnlaidIsMissed(arch: Arch, content: seq<byte>, offset: map<string, nat>)
    returns (m: Mem, base: nat, variables: map<string, nat>)
    requires Slotted(arch, content, offset) && |offset| * VarLength(arch) <= |content|
    requires |content| + 2 <= TWO64 && !Laid(arch, content, offset)
    ensures AllSetAt(arch, content, offset, m, base, variables) && !Recognised(arch, content, m, base, |offset|)
  {
    hide Slotted, Loaded, SlotHolds, Variable;
    var k := EarlyKey(arch, content, offset);
    var at := offset[k];
    base := if (1 + at + 8) % 256 != content[at] as nat then 1 else 2;
    var v: nat := if content[at] == 0 then 1 else 0;
    m, variables := SetEverything(arch, content, offset, base, v);
    SetSlotDiffers(arch, content, m, base, at, v);
    assert !Recognised(arch, content, m, base, |offset|) by { assert m[base + at] != content[base + at - base]; }
  }

  lemma SetSlotDiffers(arch: Arch, content: seq<byte>, m: Mem, base: nat, at: nat, v: nat)
    requires at < |content| && SlotHolds(arch, m, base + at, v)
    requires if arch.Amd64? then v < 2 && v != content[at] as nat else (base + at + 8) % 256 != content[at] as nat
    ensures base + at in m && m[base + at] != content[at]
  {
    hide FromBytes;
    var b := Load(m, base + at, 8);
    LowByte(b);
    assert b[0] == m[base + at];
  }

  /** A set image is recognised, wherever it is and whatever its variables, if and only if its
      slots lie in the last bytes. */
  lemma RecognisedExactly(arch: Arch, content: seq<byte>, offset: map<string, nat>)
    requires Slotted(arch, content, offset) && |offset| * VarLength(arch) <= |content| && |content| + 2 <= TWO64
    ensures Laid(arch, content, offset) <==>
            forall m: Mem, base: nat, variables: map<string, nat> ::
              AllSetAt(arch, content, offset, m, base, variables) ==> Recognised(arch, content, m, base, |offset|)
  {
    hide Slotted, Recognised, Loaded, VariablesHold;
    if Laid(arch, content, offset) {
      forall m: Mem, base: nat, variables: map<string, nat> | AllSetAt(arch, content, offset, m, base, variables)
        ensures Recognised(arch, content, m, base, |offset|) {
        LaidIsRecognised(arch, content, offset, m, base);
      }
    } else {
      var m, base, variables := UnlaidIsMissed(arch, content, offset);
    }
  }
}

// When the kernel has room: a gap in the target's memory, which a small memory always has,
// and a kernel that grants every request for which there is one.
module Rooms {
  import opened Int64
  import opened Memory
  import opened Linker
  import opened Tracee
  import opened FakeImages

  const TOP: nat := 0xFFFF_FFFF_0000_0000

  /** n bytes from a on are free, and a is an address that a mapping may have. */
  predicate Gap(m: Mem, a: nat, n: nat) {
    && !MmapError(a) && a + n <= TWO64
    && forall x :: a <= x < a + n ==> x !in m
  }

  ghost predicate Roomy(m: Mem, n: nat) { exists a :: Gap(m, a, n) }

  /** The kernel grants every mapping for which there is a gap. */
  ghost predicate Generous(program: TracedProgram) {
    forall r: Regs, m: Mem, c: nat, n: nat ::
      IpReg(program.arch) in r && Mapped(m, r[IpReg(program.arch)], SyscallSize(program.arch)) && Roomy(m, n) ==>
        !MmapError(program.MmapAnswer(r, m, c, n, 0))
  }

  /** The code at the instruction pointer can be borrowed. */
  ghost predicate Borrowable(program: TracedProgram, regs: Regs, m: Mem) {
    IpReg(program.arch) in regs && Mapped(m, regs[IpReg(program.arch)], SyscallSize(program.arch))
  }

  /** A generous kernel, code to borrow, and room for k mappings of up to n bytes. */
  ghost predicate RoomLeft(program: TracedProgram, regs: Regs, m: Mem, n: nat, k: nat) {
    Generous(program) && Borrowable(program, regs, m) && Spacious(m, n, k)
  }

  /** What a kernel that follows the rules grants was a gap. */
  lemma GrantedIsGap(program: TracedProgram, r: Regs, m: Mem, c: nat, n: nat)
    requires program.Rules() && IpReg(program.arch) in r
    requires Mapped(m, r[IpReg(program.arch)], SyscallSize(program.arch))
    requires !MmapError(program.MmapAnswer(r, m, c, n, 0))
    ensures Gap(m, program.MmapAnswer(r, m, c, n, 0), n)
  {
    var arch, args := program.arch, [0, n, PROT_RWX, ANON_PRIVATE, 0, 0];
    ArgsArrive(arch, r, MmapNumber(arch), args);
    assert args[1] == n;
    var w, p := WithArgs(arch, r, MmapNumber(arch), args), Store(m, r[IpReg(arch)], SyscallInstr(arch));
    var e := program.kernel(w, p, c + 5);
    assert MmapRule(e, p, w[ArgRegs(arch)[1]]);
    forall x | e.result <= x < e.result + n ensures x !in m { assert x in e.writes.Keys && x !in p.Keys; }
  }

  lemma LessIsRoomy(m: Mem, n: nat, k: nat)
    requires Roomy(m, n) && k <= n
    ensures Roomy(m, k)
  {
    var a :| Gap(m, a, n);
    assert Gap(m, a, k);
  }

  /** With a generous kernel there is room for an image exactly when the code at the
      instruction pointer can be borrowed and there is a gap for its pages. */
  lemma HasPagesWhen(program: TracedProgram, length: nat, r: Regs, m: Mem, c: nat)
    requires program.Rules() && Generous(program)
    ensures HasPages(program, length, r, m, c) <==>
            Borrowable(program, r, m) && program.pageSize > 0 && Roomy(m, WholePages(length, program.pageSize))
  {
    hide TracedProgram.MmapAnswer, TracedProgram.Rules, MmapError, WholePages, Larger;
    PageIsPositive(program);
    var n, more := WholePages(length, program.pageSize), Larger(length, program.pageSize);
    if HasPages(program, length, r, m, c) {
      if !MmapError(program.MmapAnswer(r, m, c, n, 0)) {
        GrantedIsGap(program, r, m, c, n);
      } else {
        GrantedIsGap(program, r, m, c + 9, more);
        PagesCover(length, program.pageSize);
        LessIsRoomy(m, more, n);
      }
    }
  }

  lemma PageIsPositive(program: TracedProgram)
    requires program.Rules()
    ensures program.pageSize > 0
  {}

  // ---------------------------------------------------------------- small memories are roomy

  /** The k-th of the disjoint stretches of n bytes. */
  function Stretch(k: nat, n: nat): nat { 1 + k * n }

  lemma StretchNext(k: nat, j: nat, n: nat)
    requires k < j
    ensures Stretch(k, n) + n <= Stretch(j, n)
  {
    assert (j - k - 1) * n >= 0;
  }

  /** Of more stretches than there are bytes one is free. */
  lemma {:induction false} SomeStretch(keys: set<nat>, n: nat, j: nat) returns (k: nat)
    requires n > 0 && |keys| < j
    ensures k < j && forall x :: Stretch(k, n) <= x < Stretch(k, n) + n ==> x !in keys
  {
    hide Stretch;
    var a := Stretch(j - 1, n);
    if x :| a <= x < a + n && x in keys {
      var fewer := keys - {x};
      k := SomeStretch(fewer, n, j - 1);
      StretchNext(k, j - 1, n);
      forall y | Stretch(k, n) <= y < Stretch(k, n) + n ensures y !in keys { assert y !in fewer && y < x; }
    } else {
      k := j - 1;
    }
  }

  /** k mappings of up to n bytes fit one after the other, wherever the kernel puts them. */
  predicate Spacious(m: Mem, n: nat, k: nat) { (|m| + k * n) * n <= TOP }

  lemma SpaciousIsRoomy(m: Mem, n: nat, k: nat)
    requires Spacious(m, n, k) && k > 0 && n > 0
    ensures Roomy(m, n)
  {
    hide Stretch;
    var j := SomeStretch(m.Keys, n, |m| + 1);
    assert |m.Keys| == |m|;
    StretchNext(j, |m| + 1, n);
    StretchBound(|m|, n, k);
    StretchPositive(j, n);
    assert Gap(m, Stretch(j, n), n);
  }

  lemma StretchPositive(j: nat, n: nat)
    ensures Stretch(j, n) > 0
  {}

  lemma StretchBound(size: nat, n: nat, k: nat)
    requires (size + k * n) * n <= TOP && k > 0 && n > 0
    ensures Stretch(size + 1, n) <= TOP + 1
  {
    assert k * n >= 1 by { assert (k - 1) * n >= 0; }
    assert (size + k * n - (size + 1)) * n >= 0;
  }

  lemma StaysSpacious(m: Mem, r: Mem, a: nat, b: nat, n: nat, k: nat)
    requires Spacious(m, n, k) && k > 0 && b <= n && Grows(m, r, a, b)
    ensures Spacious(r, n, k - 1)
  {
    GrownSize(m, r, a, b);
    hide Grows;
    FewerLeft(|m|, |r|, n, k);
  }

  lemma GrownSize(m: Mem, r: Mem, a: nat, b: nat)
    requires Grows(m, r, a, b)
    ensures |r| <= |m| + b
  {
    forall x | x in r.Keys ensures x in m.Keys + Between(a, b) {}
    Subset(r.Keys, m.Keys + Between(a, b));
    UnionSize(m.Keys, Between(a, b));
    assert |r| == |r.Keys| && |m| == |m.Keys|;
  }

  lemma UnionSize(s: set<nat>, t: set<nat>)
    ensures |s + t| <= |s| + |t|
  {
    assert s + t == s + (t - s);
    Subset(t - s, t);
  }

  lemma FewerLeft(size: nat, now: nat, n: nat, k: nat)
    requires (size + k * n) * n <= TOP && k > 0 && now <= size + n
    ensures (now + (k - 1) * n) * n <= TOP
  {
    assert k * n == (k - 1) * n + n;
    assert ((size + k * n) - (now + (k - 1) * n)) * n >= 0;
  }

  /** The n numbers from a on. */
  function Between(a: nat, n: nat): (s: set<nat>)
    ensures |s| == n && forall x :: x in s <==> a <= x < a + n
    decreases n
  {
    if n == 0 then {} else Between(a, n - 1) + {a + n - 1}
  }

  lemma {:induction false} Subset(s: set<nat>, t: set<nat>)
    requires s <= t
    ensures |s| <= |t|
  {
    assert t == s + (t - s);
  }

  lemma LessRoom(program: TracedProgram, regs: Regs, m: Mem, n: nat, k: nat)
    ensures RoomLeft(program, regs, m, n, k + 1) ==> RoomLeft(program, regs, m, n, k)
  {
    hide Grows, Generous, Spacious;
    NoGrowth(m);
    if Spacious(m, n, k + 1) { StaysSpacious(m, m, 0, 0, n, k + 1); }
  }

  lemma NoGrowth(m: Mem)
    ensures Grows(m, m, 0, 0)
  {}

  lemma LargerIsPositive(length: nat, page: nat)
    requires page > 0
    ensures Larger(length, page) > 0
  {}

  /** Where there is room for k mappings there are pages for an image, and after it room for
      k - 1. */
  lemma RoomIsPages(program: TracedProgram, regs: Regs, m: Mem, length: nat, c: nat, n: nat, k: nat)
    requires program.Rules() && RoomLeft(program, regs, m, n, k) && k > 0 && program.pageSize > 0
    requires Larger(length, program.pageSize) <= n
    ensures HasPages(program, length, regs, m, c)
    ensures forall r: Mem, a: nat :: Grows(m, r, a, Larger(length, program.pageSize)) ==> RoomLeft(program, regs, r, n, k - 1)
  {
    hide Generous, TracedProgram.Rules, WholePages, Larger, Roomy, Spacious, HasPages;
    PagesCover(length, program.pageSize);
    LargerIsPositive(length, program.pageSize);
    SpaciousIsRoomy(m, n, k);
    LessIsRoomy(m, n, WholePages(length, program.pageSize));
    HasPagesWhen(program, length, regs, m, c);
    forall r: Mem, a: nat | Grows(m, r, a, Larger(length, program.pageSize)) ensures RoomLeft(program, regs, r, n, k - 1) {
      StaysSpacious(m, r, a, Larger(length, program.pageSize), n, k);
    }
  }

  // ---------------------------------------------------------------- a kernel that is generous

  /** The first gap from a on, or zero. */
  function FirstFit(m: Mem, n: nat, a: nat): (r: nat)
    ensures r == 0 || Gap(m, r, n)
    decreases if a <= TOP then TOP - a + 1 else 0
  {
    if a > TOP then 0 else if Gap(m, a, n) then a else FirstFit(m, n, a + 1)
  }

  lemma {:induction false} FirstFitFinds(m: Mem, n: nat, a: nat, b: nat)
    requires a <= b && Gap(m, b, n)
    ensures FirstFit(m, n, a) != 0
    decreases b - a
  {
    if a < b && !Gap(m, a, n) { FirstFitFinds(m, n, a + 1, b); }
  }

  function Grant(m: Mem, n: nat): Effect {
    var a := FirstFit(m, n, 0);
    if a == 0 then Effect(0, map[], map[]) else Effect(a, Store(map[], a, Zeroes(n)), map[])
  }

  /** It maps at the first gap, and does nothing else. */
  function FirstFitKernel(arch: Arch): Kernel {
    (r: Regs, m: Mem, c: nat) =>
      if NumberReg(arch) in r && ArgRegs(arch)[1] in r && r[NumberReg(arch)] == MmapNumber(arch)
      then Grant(m, r[ArgRegs(arch)[1]]) else Effect(0, map[], map[])
  }

  /** A process of the given memory under that kernel, none of whose primitives fails. */
  method Boot(arch: Arch, pageSize: nat, mem: Mem, ip: nat) returns (program: TracedProgram)
    requires pageSize > 0
    ensures fresh(program) && program.Valid() && Generous(program) && (forall c: nat :: !program.fails(c))
    ensures program.arch == arch && program.pageSize == pageSize && program.mem == mem && program.regs == map[IpReg(arch) := ip]
  {
    program := new TracedProgram(arch, pageSize, FirstFitKernel(arch), (c: nat) => false, mem, map[IpReg(arch) := ip]);
    FirstFitRules(program);
    FirstFitIsGenerous(program);
  }

  lemma FirstFitRules(program: TracedProgram)
    requires program.pageSize > 0 && program.kernel == FirstFitKernel(program.arch)
    ensures program.Rules()
  {
    hide FirstFit, Gap;
    forall r: Regs, m: Mem, c: nat
      | NumberReg(program.arch) in r && ArgRegs(program.arch)[1] in r && r[NumberReg(program.arch)] == MmapNumber(program.arch)
      ensures MmapRule(program.kernel(r, m, c), m, r[ArgRegs(program.arch)[1]]) {
      GrantRule(m, r[ArgRegs(program.arch)[1]]);
    }
  }

  lemma GrantRule(m: Mem, n: nat)
    ensures MmapRule(Grant(m, n), m, n)
  {
    hide FirstFit;
  }

  lemma FirstFitIsGenerous(program: TracedProgram)
    requires program.kernel == FirstFitKernel(program.arch)
    ensures Generous(program)
  {
    hide FirstFit, Gap;
    forall r: Regs, m: Mem, c: nat, n: nat
      | IpReg(program.arch) in r && Mapped(m, r[IpReg(program.arch)], SyscallSize(program.arch)) && Roomy(m, n)
      ensures !MmapError(program.MmapAnswer(r, m, c, n, 0)) {
      FirstFitGrants(program, r, m, c, n);
    }
  }

  lemma FirstFitGrants(program: TracedProgram, r: Regs, m: Mem, c: nat, n: nat)
    requires program.kernel == FirstFitKernel(program.arch) && IpReg(program.arch) in r
    requires Mapped(m, r[IpReg(program.arch)], SyscallSize(program.arch)) && Roomy(m, n)
    ensures !MmapError(program.MmapAnswer(r, m, c, n, 0))
  {
    hide FirstFit, WithArgs;
    var arch, args := program.arch, [0, n, PROT_RWX, ANON_PRIVATE, 0, 0];
    ArgsArrive(arch, r, MmapNumber(arch), args);
    assert args[1] == n;
    var p := Store(m, r[IpReg(arch)], SyscallInstr(arch));
    var a :| Gap(m, a, n);
    assert Gap(p, a, n);
    FirstFitFinds(p, n, 0, a);
  }
}

// A traced process seen through ptrace: its memory and registers, the primitives that
// act on it, each of which may fail, and what the injector builds from them.
module Tracee {
  import opened Int64
  import opened Memory
  import opened Linker

  type Regs = map<string, nat>

  function IpReg(arch: Arch): string { if arch.Amd64? then "rip" else "pc" }
  function NumberReg(arch: Arch): string { if arch.Amd64? then "rax" else "x8" }
  function ResultReg(arch: Arch): string { if arch.Amd64? then "rax" else "x0" }

  /** The argument registers, in order; on arm64 the code lets a seventh through. */
  function ArgRegs(arch: Arch): seq<string> {
    if arch.Amd64? then ["rdi", "rsi", "rdx", "r10", "r8", "r9"]
    else ["x0", "x1", "x2", "x3", "x4", "x5", "x6"]
  }

  /** syscall, or svc #0. */
  function SyscallInstr(arch: Arch): seq<byte> {
    if arch.Amd64? then LittleEndian(0x050f, 2) else LittleEndian(0xd4000001, 4)
  }

  function SyscallSize(arch: Arch): (n: nat)
    ensures n == |SyscallInstr(arch)| && n > 0
  {
    if arch.Amd64? then 2 else 4
  }

  function MmapNumber(arch: Arch): nat { if arch.Amd64? then 9 else 222 }

  /** What a system call does: its result, the bytes it writes or maps, and the registers
      it spoils besides. */
  datatype Effect = Effect(result: nat, writes: Mem, spoils: Regs)

  /** The kernel, as a function of registers, memory and the number of calls so far. */
  type Kernel = (Regs, Mem, nat) -> Effect

  /** tryMmap takes zero and the top of the address space for errors. */
  predicate MmapError(result: nat) { result == 0 || result > 0xFFFF_FFFF_0000_0000 }

  /** Exactly n bytes at a, all of them zero, none beyond 64 bits of address. */
  ghost predicate NewPages(w: Mem, a: nat, n: nat) {
    && a + n <= TWO64
    && forall x :: (x in w <==> a <= x < a + n) && (x in w ==> w[x] == 0)
  }

  /** Registers with the call's number and arguments in them. */
  function WithArgs(arch: Arch, regs: Regs, number: nat, args: seq<nat>): Regs
    requires |args| <= |ArgRegs(arch)|
  {
    if args == [] then regs[NumberReg(arch) := number]
    else WithArgs(arch, regs, number, args[..|args| - 1])[ArgRegs(arch)[|args| - 1] := args[|args| - 1]]
  }

  /** The calling conventions of the two kernels, and what mmap is called with. */
  lemma Convention(arch: Arch)
    ensures arch.Amd64? ==>
              && IpReg(arch) == "rip" && NumberReg(arch) == "rax" && ResultReg(arch) == "rax" && MmapNumber(arch) == 9
              && ArgRegs(arch) == ["rdi", "rsi", "rdx", "r10", "r8", "r9"] && SyscallInstr(arch) == [0x0f, 0x05]
    ensures arch.Arm64? ==>
              && IpReg(arch) == "pc" && NumberReg(arch) == "x8" && ResultReg(arch) == "x0" && MmapNumber(arch) == 222
              && ArgRegs(arch) == ["x0", "x1", "x2", "x3", "x4", "x5", "x6"]
              && SyscallInstr(arch) == [0x01, 0x00, 0x00, 0xd4]
    ensures PROT_RWX == 7 && ANON_PRIVATE == 0x22
  {
    if arch.Amd64? {
      assert LittleEndian(0x050f, 2) == [0x0f] + LittleEndian(0x05, 1);
    } else {
      assert LittleEndian(0xd4000001, 4) == [0x01] + LittleEndian(0xd40000, 3);
      assert LittleEndian(0xd40000, 3) == [0x00] + LittleEndian(0xd400, 2);
      assert LittleEndian(0xd400, 2) == [0x00] + LittleEndian(0xd4, 1);
    }
  }

  /** The number and the arguments are in their registers, and all the others are as before. */
  lemma {:induction false} ArgsArrive(arch: Arch, regs: Regs, number: nat, args: seq<nat>)
    requires |args| <= |ArgRegs(arch)|
    ensures var w := WithArgs(arch, regs, number, args);
            && NumberReg(arch) in w && w[NumberReg(arch)] == number
            && (forall k :: 0 <= k < |args| ==> ArgRegs(arch)[k] in w && w[ArgRegs(arch)[k]] == args[k])
            && (IpReg(arch) in regs ==> IpReg(arch) in w && w[IpReg(arch)] == regs[IpReg(arch)])
            && (forall r :: r != NumberReg(arch) && r !in ArgRegs(arch)[..|args|] ==>
                  (r in w <==> r in regs) && (r in regs ==> w[r] == regs[r]))
  {
    if args != [] {
      var n := |args| - 1;
      ArgsArrive(arch, regs, number, args[..n]);
      assert ArgRegs(arch)[..n + 1] == ArgRegs(arch)[..n] + [ArgRegs(arch)[n]];
    }
  }

  /** The register file with all six arguments of a call. */
  lemma SixArgs(arch: Arch, regs: Regs, number: nat, a: nat, b: nat, c: nat, d: nat, e: nat, f: nat)
    ensures WithArgs(arch, regs, number, [a, b, c, d, e, f]) ==
            if arch.Amd64? then
              regs["rax" := number]["rdi" := a]["rsi" := b]["rdx" := c]["r10" := d]["r8" := e]["r9" := f]
            else
              regs["x8" := number]["x0" := a]["x1" := b]["x2" := c]["x3" := d]["x4" := e]["x5" := f]
  {
    hide WithArgs;
    NoArgs(arch, regs, number);
    OneMoreArg(arch, regs, number, [], a);
    OneMoreArg(arch, regs, number, [a], b);
    OneMoreArg(arch, regs, number, [a, b], c);
    OneMoreArg(arch, regs, number, [a, b, c], d);
    OneMoreArg(arch, regs, number, [a, b, c, d], e);
    OneMoreArg(arch, regs, number, [a, b, c, d, e], f);
    assert [] + [a] == [a] && [a] + [b] == [a, b] && [a, b] + [c] == [a, b, c] && [a, b, c] + [d] == [a, b, c, d];
    assert [a, b, c, d] + [e] == [a, b, c, d, e] && [a, b, c, d, e] + [f] == [a, b, c, d, e, f];
  }

  lemma NoArgs(arch: Arch, regs: Regs, number: nat)
    ensures WithArgs(arch, regs, number, []) == regs[NumberReg(arch) := number]
  {}

  lemma OneMoreArg(arch: Arch, regs: Regs, number: nat, args: seq<nat>, v: nat)
    requires |args| < |ArgRegs(arch)|
    ensures WithArgs(arch, regs, number, args + [v]) == WithArgs(arch, regs, number, args)[ArgRegs(arch)[|args|] := v]
  {
    assert (args + [v])[..|args|] == args;
  }

  /** A mapped part of the target, as MmapSlice returns it. */
  datatype Region = Region(start: nat, end: nat)

  class TracedProgram {
    const arch: Arch
    const pageSize: nat
    const kernel: Kernel
    // Which primitives fail, by the number of calls made before.
    const fails: nat -> bool
    var mem: Mem
    var regs: Regs
    var calls: nat
    var backupRegs: Regs
    var backupCode: seq<byte>

    constructor (arch: Arch, pageSize: nat, kernel: Kernel, fails: nat -> bool, mem: Mem, regs: Regs)
      ensures this.arch == arch && this.pageSize == pageSize && this.kernel == kernel && this.fails == fails
      ensures this.mem == mem && this.regs == regs && calls == 0
    {
      this.arch, this.pageSize, this.kernel, this.fails := arch, pageSize, kernel, fails;
      this.mem, this.regs, calls, backupRegs, backupCode := mem, regs, 0, map[], [];
    }

    /** Registers are there, a mapping is new and zeroed, and has whole pages. */
    ghost predicate Rules() {
      && pageSize > 0
      && (forall r: Regs, m: Mem, c: nat ::
            NumberReg(arch) in r && ArgRegs(arch)[1] in r && r[NumberReg(arch)] == MmapNumber(arch) ==>
            MmapRule(kernel(r, m, c), m, r[ArgRegs(arch)[1]]))
    }

    ghost predicate Valid() reads this {
      Rules() && IpReg(arch) in regs
    }

    /** No primitive failed between two points. */
    predicate NoFailure(from: nat, to: nat) reads this {
      forall c :: from <= c < to ==> !fails(c)
    }

    method Primitive() returns (ok: bool)
      modifies this`calls
      ensures ok <==> !fails(old(calls))
      ensures calls == old(calls) + 1
    {
      ok := !fails(calls);
      calls := calls + 1;
    }

    method Peek(a: nat, n: nat) returns (ok: bool, b: seq<byte>)
      modifies this`calls
      ensures ok <==> !fails(old(calls)) && Mapped(mem, a, n)
      ensures calls == old(calls) + 1
      ensures ok ==> Mapped(mem, a, n) && b == Load(mem, a, n)
    {
      b := [];
      ok := Primitive();
      ok := ok && forall x :: a <= x < a + n ==> x in mem;
      if ok { b := Load(mem, a, n); }
    }

    method Poke(a: nat, b: seq<byte>) returns (ok: bool)
      modifies this`calls, this`mem
      ensures ok <==> !fails(old(calls)) && Mapped(old(mem), a, |b|)
      ensures calls == old(calls) + 1
      ensures mem == if ok then Store(old(mem), a, b) else old(mem)
    {
      ok := Primitive();
      ok := ok && forall x :: a <= x < a + |b| ==> x in mem;
      if ok { mem := Store(mem, a, b); }
    }

    /** One instruction, which must be the system call the tracer put there. */
    method Step() returns (ok: bool)
      requires Valid()
      modifies this`calls, this`mem, this`regs
      ensures ok ==>
                var ip := old(regs)[IpReg(arch)];
                var e := kernel(old(regs), old(mem), old(calls));
                && Mapped(old(mem), ip, SyscallSize(arch))
                && Load(old(mem), ip, SyscallSize(arch)) == SyscallInstr(arch)
                && mem == old(mem) + e.writes
                && ResultReg(arch) in regs && regs[ResultReg(arch)] == e.result
      ensures ok ==>
                var result := if arch.Amd64? then "rax" else "x0";
                var ip := if arch.Amd64? then "rip" else "pc";
                result in regs && ip in old(regs) && regs[result] == kernel(old(regs), old(mem), old(calls)).result
      ensures !ok ==> mem == old(mem) && regs == old(regs)
      ensures calls == old(calls) + 1 && IpReg(arch) in regs
      ensures (&& !fails(old(calls)) && Mapped(old(mem), old(regs)[IpReg(arch)], SyscallSize(arch))
               && Load(old(mem), old(regs)[IpReg(arch)], SyscallSize(arch)) == SyscallInstr(arch)) ==> ok
    {
      var at := calls;
      ok := Primitive();
      var ip := regs[IpReg(arch)];
      var n := SyscallSize(arch);
      ok := ok && forall x :: ip <= x < ip + n ==> x in mem;
      if !ok { return; }
      ok := Load(mem, ip, n) == SyscallInstr(arch);
      if !ok { return; }
      var e := kernel(regs, mem, at);
      mem := mem + e.writes;
      regs := (regs + e.spoils)[IpReg(arch) := ip + n][ResultReg(arch) := e.result];
    }

    method Protect() returns (ok: bool)
      requires Valid()
      modifies this`calls, this`backupRegs, this`backupCode
      ensures old(calls) < calls <= old(calls) + 2 && (ok ==> calls == old(calls) + 2)
      ensures NoFailure(old(calls), calls) && Mapped(mem, regs[IpReg(arch)], SyscallSize(arch)) ==> ok
      ensures ok ==> backupRegs == regs && Mapped(mem, regs[IpReg(arch)], SyscallSize(arch))
                     && backupCode == Load(mem, regs[IpReg(arch)], SyscallSize(arch))
    {
      ok := Primitive();
      if !ok { return; }
      backupRegs := regs;
      ok, backupCode := Peek(backupRegs[IpReg(arch)], SyscallSize(arch));
    }

    method Restore() returns (ok: bool)
      requires IpReg(arch) in backupRegs && IpReg(arch) in regs
      modifies this`calls, this`mem, this`regs
      ensures old(calls) < calls <= old(calls) + 2 && (ok ==> calls == old(calls) + 2) && IpReg(arch) in regs
      ensures (NoFailure(old(calls), calls) && Mapped(old(mem), backupRegs[IpReg(arch)], |backupCode|)) ==> ok
      ensures ok ==> regs == backupRegs && mem == Store(old(mem), backupRegs[IpReg(arch)], backupCode)
      ensures !ok ==> mem == old(mem)
    {
      ok := Primitive();
      if !ok { return; }
      regs := backupRegs;
      ok := Poke(backupRegs[IpReg(arch)], backupCode);
    }

    /** What the kernel answers to a system call made in a state: it is the sixth primitive of
        the call, and sees the arguments in the registers and its instruction in memory. */
    function Answer(r: Regs, m: Mem, c: nat, number: nat, args: seq<nat>): nat
      requires IpReg(arch) in r && |args| <= |ArgRegs(arch)|
    {
      kernel(WithArgs(arch, r, number, args), Store(m, r[IpReg(arch)], SyscallInstr(arch)), c + 5).result
    }

    function MmapAnswer(r: Regs, m: Mem, c: nat, length: nat, fd: nat): nat
      requires IpReg(arch) in r
    {
      Answer(r, m, c, MmapNumber(arch), [0, length, PROT_RWX, ANON_PRIVATE, fd, 0])
    }

    /** Whether a mapping is to be had in a state: the code at the instruction pointer can be
        borrowed, and the kernel grants the first length, or the larger one nine calls later. */
    ghost predicate Obtains(r: Regs, m: Mem, c: nat, length: nat, fd: nat)
      requires pageSize > 0
    {
      && IpReg(arch) in r && Mapped(m, r[IpReg(arch)], SyscallSize(arch))
      && (|| !MmapError(MmapAnswer(r, m, c, WholePages(length, pageSize), fd))
          || !MmapError(MmapAnswer(r, m, c + 9, Larger(length, pageSize), fd)))
    }

    /** And where it then is. */
    ghost function Place(r: Regs, m: Mem, c: nat, length: nat, fd: nat): nat
      requires pageSize > 0 && IpReg(arch) in r
    {
      var first := MmapAnswer(r, m, c, WholePages(length, pageSize), fd);
      if !MmapError(first) then first else MmapAnswer(r, m, c + 9, Larger(length, pageSize), fd)
    }

    /** The instruction in place of the code there, one step, and everything back. */
    method RunCall(call: Regs) returns (ok: bool, result: nat, ghost at: nat, ghost e: Effect)
      requires Valid() && IpReg(arch) in call && backupRegs == regs
      requires call[IpReg(arch)] == regs[IpReg(arch)] && Mapped(mem, regs[IpReg(arch)], SyscallSize(arch))
      requires backupCode == Load(mem, regs[IpReg(arch)], SyscallSize(arch))
      modifies this
      ensures backupRegs == old(backupRegs) && calls > old(calls) && IpReg(arch) in regs
      ensures ok ==> e == kernel(call, Store(old(mem), old(regs)[IpReg(arch)], SyscallInstr(arch)), at)
                     && result == e.result && regs == old(regs)
      ensures ok ==> Transparent(old(mem), mem, e.writes, old(regs)[IpReg(arch)], SyscallSize(arch))
      ensures ok ==> at == old(calls) + 2 && calls == old(calls) + 6
      ensures !ok ==> !NoFailure(old(calls), calls)
    {
      hide Store, Transparent, MmapRule, MmapWrites, Rules;
      result, at, e := 0, 0, Effect(0, map[], map[]);
      ok := Primitive();
      if !ok { return; }
      regs := call;
      var ip := backupRegs[IpReg(arch)];
      InstrInPlace(mem, ip, SyscallInstr(arch));
      ok := Poke(ip, SyscallInstr(arch));
      if !ok { return; }
      at := calls;
      e := kernel(call, mem, at);
      ghost var patched := mem;
      ok := Step();
      if !ok { return; }
      ok := Primitive();
      if !ok { return; }
      result := regs[ResultReg(arch)];
      StillMapped(patched, e.writes, ip, |backupCode|);
      ok := Restore();
      RestoredIsTransparent(old(mem), e.writes, ip, SyscallInstr(arch));
    }

    /** Syscall: it borrows the registers and the code at the instruction pointer.  When it
        returns no error they are as before, and memory has changed only by what the system
        call itself wrote elsewhere; and it returns an error only when a primitive failed, the
        code was not readable, or there were too many arguments.  The kernel is entered with the
        number and the arguments in the registers of its calling convention, and with its
        instruction in place of the code. */
    method Syscall(number: nat, args: seq<nat>) returns (ok: bool, result: nat, ghost writes: Mem)
      requires Valid()
      modifies this
      ensures ok ==> regs == old(regs) && Transparent(old(mem), mem, writes, old(regs)[IpReg(arch)], SyscallSize(arch))
      ensures ok ==> |args| <= |ArgRegs(arch)| && calls == old(calls) + 9
                     && result == Answer(old(regs), old(mem), old(calls), number, args)
      ensures ok ==>
                var names := if arch.Amd64? then ["rdi", "rsi", "rdx", "r10", "r8", "r9"]
                             else ["x0", "x1", "x2", "x3", "x4", "x5", "x6"];
                var nr := if arch.Amd64? then "rax" else "x8";
                var ip := if arch.Amd64? then "rip" else "pc";
                var code := if arch.Amd64? then [0x0f, 0x05] else [0x01, 0x00, 0x00, 0xd4];
                var call := WithArgs(arch, old(regs), number, args);
                && |args| <= |names| && nr in call && call[nr] == number
                && (forall k :: 0 <= k < |args| ==> names[k] in call && call[names[k]] == args[k])
                && (forall r :: r != nr && r !in names[..|args|] ==>
                      (r in call <==> r in old(regs)) && (r in call ==> call[r] == old(regs)[r]))
                && ip in old(regs)
                && result == kernel(call, Store(old(mem), old(regs)[ip], code), old(calls) + 5).result
      ensures ok && number == MmapNumber(arch) && |args| > 1 ==> MmapWrites(old(mem), writes, result, args[1])
      ensures |args| > |ArgRegs(arch)| ==> !ok && mem == old(mem) && regs == old(regs)
      ensures !ok && NoFailure(old(calls), calls) ==> mem == old(mem) && regs == old(regs)
      ensures !ok && NoFailure(old(calls), calls) ==>
                |args| > |ArgRegs(arch)| || !Mapped(old(mem), old(regs)[IpReg(arch)], SyscallSize(arch))
      ensures calls > old(calls) && IpReg(arch) in regs
    {
      hide Store, Transparent, MmapRule, MmapWrites, WithArgs;
      result, writes := 0, map[];
      ok := Protect();
      if !ok { return; }
      ok := Primitive();
      if !ok { return; }
      if |args| > |ArgRegs(arch)| { ok := false; return; }
      ArgsArrive(arch, regs, number, args);
      Convention(arch);
      ghost var at, e;
      var ip := regs[IpReg(arch)];
      ok, result, at, e := RunCall(WithArgs(arch, regs, number, args));
      if !ok { return; }
      writes := e.writes;
      if number == MmapNumber(arch) && |args| > 1 {
        PatchedMapping(old(mem), ip, SyscallInstr(arch), e, args[1]);
      }
    }

    method TryMmap(length: nat, fd: nat) returns (ok: bool, result: nat, ghost writes: Mem)
      requires Valid()
      modifies this
      ensures Valid() && calls >= old(calls)
      ensures ok ==> !MmapError(result) && NewPages(writes, result, length) && writes.Keys !! old(mem).Keys
      ensures ok ==> mem == old(mem) + writes && regs == old(regs)
      ensures !ok && NoFailure(old(calls), calls) ==> mem == old(mem) && regs == old(regs)
      ensures ok ==> result == MmapAnswer(old(regs), old(mem), old(calls), length, fd)
      ensures ok ==> 0 < result <= 0xFFFF_FFFF_0000_0000
      ensures !ok && NoFailure(old(calls), calls) && Mapped(old(mem), old(regs)[IpReg(arch)], SyscallSize(arch)) ==>
                result == 0 || result > 0xFFFF_FFFF_0000_0000
      ensures ok && arch.Amd64? ==>
                && "rip" in old(regs)
                && var call := old(regs)["rax" := 9]["rdi" := 0]["rsi" := length]["rdx" := 7]["r10" := 0x22]["r8" := fd]["r9" := 0];
                   result == kernel(call, Store(old(mem), old(regs)["rip"], [0x0f, 0x05]), old(calls) + 5).result
      ensures ok && arch.Arm64? ==>
                && "pc" in old(regs)
                && var call := old(regs)["x8" := 222]["x0" := 0]["x1" := length]["x2" := 7]["x3" := 0x22]["x4" := fd]["x5" := 0];
                   result == kernel(call, Store(old(mem), old(regs)["pc"], [0x01, 0x00, 0x00, 0xd4]), old(calls) + 5).result
      ensures NoFailure(old(calls), calls) ==>
                var code := Mapped(old(mem), old(regs)[IpReg(arch)], SyscallSize(arch));
                && (ok <==> code && !MmapError(MmapAnswer(old(regs), old(mem), old(calls), length, fd)))
                && (code ==> calls == old(calls) + 9)
    {
      hide Answer, WithArgs;
      Convention(arch);
      SixArgs(arch, regs, MmapNumber(arch), 0, length, PROT_RWX, ANON_PRIVATE, fd, 0);
      ok, result, writes := Syscall(MmapNumber(arch), [0, length, PROT_RWX, ANON_PRIVATE, fd, 0]);
      if ok { TransparentMapping(old(mem), mem, writes, old(regs)[IpReg(arch)], SyscallSize(arch)); }
      if !ok { return; }
      if MmapError(result) {
        assert mem == old(mem);
        ok := false;
      }
    }

    /** Mmap: whole pages for the length; if that is refused, at least two.  Unless a primitive
        fails it succeeds exactly when the kernel grants one of the two. */
    method Mmap(length: nat, fd: nat) returns (ok: bool, result: nat, ghost writes: Mem)
      requires Valid()
      modifies this
      ensures Valid() && calls >= old(calls)
      ensures ok ==> !MmapError(result)
      ensures ok && NoFailure(old(calls), calls) ==>
                && writes.Keys !! old(mem).Keys
                && (NewPages(writes, result, WholePages(length, pageSize))
                    || NewPages(writes, result, Larger(length, pageSize)))
                && mem == old(mem) + writes && regs == old(regs)
                && result == Place(old(regs), old(mem), old(calls), length, fd)
      ensures !ok && NoFailure(old(calls), calls) ==> mem == old(mem) && regs == old(regs)
      ensures NoFailure(old(calls), calls) ==> (ok <==> Obtains(old(regs), old(mem), old(calls), length, fd))
    {
      hide NewPages, WholePages, Larger, MmapAnswer;
      var aligned := WholePages(length, pageSize);
      ok, result, writes := TryMmap(aligned, fd);
      if ok { return; }
      ok, result, writes := TryMmap(Larger(length, pageSize), fd);
    }

    /** An empty slice has no first byte to point at: the panic counts as a failure. */
    method ReadSlice(a: nat, n: nat) returns (ok: bool, b: seq<byte>)
      modifies this`calls
      ensures ok <==> n > 0 && !fails(old(calls)) && Mapped(mem, a, n)
      ensures ok ==> b == Load(mem, a, n)
      ensures calls == if n > 0 then old(calls) + 1 else old(calls)
    {
      if n == 0 { return false, []; }
      ok, b := Peek(a, n);
    }

    method WriteSlice(a: nat, b: seq<byte>) returns (ok: bool)
      modifies this`calls, this`mem
      ensures ok <==> |b| > 0 && !fails(old(calls)) && Mapped(old(mem), a, |b|)
      ensures mem == if ok then Store(old(mem), a, b) else old(mem)
      ensures calls == if |b| > 0 then old(calls) + 1 else old(calls)
    {
      if |b| == 0 { return false; }
      ok := Poke(a, b);
    }

    method WriteUint64ToAddr(a: nat, v: nat) returns (ok: bool)
      requires v < TWO64
      modifies this`calls, this`mem
      ensures ok <==> !fails(old(calls)) && Mapped(old(mem), a, 8)
      ensures mem == if ok then Store(old(mem), a, LittleEndian(v, 8)) else old(mem)
      ensures calls == old(calls) + 1
    {
      ok := WriteSlice(a, LittleEndian(v, 8));
    }

    /** PtraceWriteSlice: eight bytes at a time, the last ones padded with zeroes.  If it
        fails, some words have been written. */
    method PtraceWriteSlice(a: nat, buffer: seq<byte>) returns (ok: bool)
      modifies this`calls, this`mem
      ensures ok ==> mem == Store(old(mem), a, Aligned(buffer)) && Mapped(old(mem), a, |Aligned(buffer)|)
      ensures !ok ==> exists k :: 0 <= k < |Aligned(buffer)| / 8 && mem == Store(old(mem), a, Aligned(buffer)[..8 * k])
      ensures NoFailure(old(calls), calls) && Mapped(old(mem), a, |Aligned(buffer)|) ==> ok
      ensures calls >= old(calls)
    {
      hide Store, Aligned;
      var b := Aligned(buffer);
      var wrote := 0;
      ghost var k := 0;
      StoreNothing(mem, a);
      while wrote + 8 <= |b|
        invariant wrote == 8 * k <= |b| && calls >= old(calls)
        invariant mem == Store(old(mem), a, b[..wrote]) && Mapped(old(mem), a, wrote)
      {
        MappedBehind(old(mem), a, b[..wrote], 8);
        ok := Poke(a + wrote, b[wrote..wrote + 8]);
        if !ok { return; }
        StoreAppend(old(mem), a, b[..wrote], b[wrote..wrote + 8]);
        assert b[..wrote] + b[wrote..wrote + 8] == b[..wrote + 8];
        wrote, k := wrote + 8, k + 1;
      }
      assert b[..wrote] == b;
      return true;
    }

    /** JumpToFakeFunc: sixteen bytes that jump to the target. */
    method JumpToFakeFunc(origin: nat, target: nat) returns (ok: bool)
      requires target < TWO64
      modifies this`calls, this`mem
      ensures ok ==> mem == Store(old(mem), origin, JumpBytes(arch, target)) && Mapped(old(mem), origin, 16)
      ensures !ok ==> mem == old(mem) || mem == Store(old(mem), origin, JumpBytes(arch, target)[..8])
      ensures NoFailure(old(calls), calls) && Mapped(old(mem), origin, 16) ==> ok
      ensures calls >= old(calls)
    {
      hide Store, JumpBytes, Aligned;
      var b := JumpBytes(arch, target);
      AlignedWhole(b);
      ok := PtraceWriteSlice(origin, b);
      StoreNothing(old(mem), origin);
      assert b[..8 * 0] == [];
    }

    /** MmapSlice: new pages that start with the slice. */
    method MmapSlice(slice: seq<byte>) returns (ok: bool, e: Region, ghost writes: Mem)
      requires Valid()
      modifies this
      ensures Valid() && calls >= old(calls)
      ensures ok ==> 0 < e.start && !MmapError(e.start) && e.end == e.start + |slice|
      ensures ok && NoFailure(old(calls), calls) ==>
                && Holds(old(mem), mem, writes, e, slice) && regs == old(regs)
                && (NewPages(writes, e.start, WholePages(|slice|, pageSize))
                    || NewPages(writes, e.start, Larger(|slice|, pageSize)))
                && Grows(old(mem), mem, e.start, Larger(|slice|, pageSize))
      ensures !ok && NoFailure(old(calls), calls) && |slice| > 0 ==> mem == old(mem) && regs == old(regs)
      ensures ok && NoFailure(old(calls), calls) ==> e.start == Place(old(regs), old(mem), old(calls), |slice|, 0)
      ensures NoFailure(old(calls), calls) ==>
                (ok <==> |slice| > 0 && Obtains(old(regs), old(mem), old(calls), |slice|, 0))
    {
      hide Obtains, Place, WholePages, Larger;
      var addr;
      e := Region(0, 0);
      ok, addr, writes := Mmap(|slice|, 0);
      if !ok { return; }
      PagesCover(|slice|, pageSize);
      ok := WriteSlice(addr, slice);
      if !ok { return; }
      e := Region(addr, addr + |slice|);
    }
  }

  /** The region was free before; it is mapped now, and holds the slice. */
  ghost predicate Holds(before: Mem, after: Mem, writes: Mem, e: Region, slice: seq<byte>) {
    && writes.Keys !! before.Keys
    && e.end == e.start + |slice| <= TWO64
    && Mapped(writes, e.start, |slice|)
    && after == Store(before + writes, e.start, slice)
  }

  /** Everything mapped still is, and besides it at most n bytes from a on. */
  ghost predicate Grows(m: Mem, r: Mem, a: nat, n: nat) {
    && (forall x :: x in m ==> x in r)
    && (forall x :: x in r ==> x in m || a <= x < a + n)
  }

  const PROT_RWX: nat := 7
  const ANON_PRIVATE: nat := 0x22

  /** Rounded up to whole pages; the source does it with masks, a page being a power of two. */
  function WholePages(length: nat, page: nat): nat
    requires page > 0
  {
    (length + page - 1) / page * page
  }

  /** The fallback asks for two pages at least. */
  function Larger(length: nat, page: nat): nat
    requires page > 0
  {
    var n := WholePages(length, page);
    if n < 2 * page then 2 * page else n
  }

  /** The least multiple of the page that covers the length. */
  lemma PagesCover(length: nat, page: nat)
    requires page > 0
    ensures var n := WholePages(length, page);
            n % page == 0 && length <= n < length + page && n <= Larger(length, page) && Larger(length, page) % page == 0
    ensures Larger(length, page) >= 2 * page && Larger(length, page) in {2 * page, WholePages(length, page)}
  {
    var q := (length + page - 1) / page;
    var r := (length + page - 1) % page;
    assert length + page - 1 == q * page + r;
    MultipleOf(q, page);
    MultipleOf(2, page);
  }

  lemma MultipleOf(q: nat, page: nat)
    requires page > 0
    ensures (q * page) % page == 0
  {
    var d, m := (q * page) / page, (q * page) % page;
    assert (q - d) * page == m;
    if q != d { BigMultiple(q - d, page); }
  }

  lemma BigMultiple(k: int, page: nat)
    requires page > 0 && k != 0
    ensures k * page >= page || k * page <= 0 - page
  {
    if k >= 1 { assert (k - 1) * page >= 0; } else { assert (-k - 1) * page >= 0; }
  }

  // ---------------------------------------------------------------- words and jumps

  /** Up to a whole number of eight-byte words. */
  function RoundUp8(n: nat): (r: nat)
    ensures r % 8 == 0 && n <= r < n + 8
  {
    if n / 8 * 8 < n then n / 8 * 8 + 8 else n / 8 * 8
  }

  /** alignBuffer. */
  function Aligned(buffer: seq<byte>): (b: seq<byte>)
    ensures |b| == RoundUp8(|buffer|)
  {
    buffer + Zeroes(RoundUp8(|buffer|) - |buffer|)
  }

  /** The bytes, and zeroes up to a whole word. */
  lemma AlignedAt(buffer: seq<byte>, k: nat)
    requires k < RoundUp8(|buffer|)
    ensures Aligned(buffer)[k] == if k < |buffer| then buffer[k] else 0
  {}

  lemma AlignedWhole(b: seq<byte>)
    requires |b| % 8 == 0
    ensures Aligned(b) == b
  {}

  /** mov rax, target; jmp rax; four bytes of padding.  Or: ldr x9, #8; br x9; target. */
  function JumpBytes(arch: Arch, target: nat): (b: seq<byte>)
    ensures |b| == 16
  {
    if arch.Amd64? then [0x48, 0xb8] + LittleEndian(target, 8) + [0xff, 0xe0] + Zeroes(4)
    else LittleEndian(0x58000049, 4) + LittleEndian(0xD61F0120, 4) + LittleEndian(target, 8)
  }

  /** Where the CPU goes from sixteen bytes at some address, if they are one of the two
      jumps: an immediate move to rax and a jump through it; or a literal load into a
      register from the eight bytes behind and a branch through that register. */
  function JumpTarget(arch: Arch, b: seq<byte>): Option<nat>
    requires |b| == 16
  {
    if arch.Amd64? then
      if b[0] == 0x48 && b[1] == 0xb8 && b[10] == 0xff && b[11] == 0xe0 then Some(FromBytes(b[2..10])) else None
    else
      var ldr, br := Word(b, 0), Word(b, 4);
      var rt := ldr % 32;
      var offset := 4 * (ldr / 32 % IMM19);
      var rn := br / 32 % 32;
      if ldr / 0x100_0000 == 0x58 && br == 0xD61F_0000 + 32 * rn && rn == rt && offset == 8
      then Some(FromBytes(b[offset..offset + 8])) else None
  }

  /** The bytes written decode to a jump to the target. */
  lemma JumpReaches(arch: Arch, target: nat)
    requires target < TWO64
    ensures JumpTarget(arch, JumpBytes(arch, target)) == Some(target)
  {
    hide LittleEndian, FromBytes;
    var b := JumpBytes(arch, target);
    assert FromBytes(LittleEndian(target, 8)) == target by {
      Pow256Values();
      ReadBack(target, 8);
    }
    if arch.Amd64? {
      assert b[2..10] == LittleEndian(target, 8);
    } else {
      LdrBrWords();
      assert b[0..4] == LittleEndian(0x58000049, 4);
      assert b[4..8] == LittleEndian(0xD61F0120, 4);
      assert b[8..16] == LittleEndian(target, 8);
    }
  }

  lemma LdrBrWords()
    ensures FromBytes(LittleEndian(0x58000049, 4)) == 0x58000049
    ensures FromBytes(LittleEndian(0xD61F0120, 4)) == 0xD61F0120
  {
    hide LittleEndian, FromBytes;
    Pow256Values();
    ReadBack(0x58000049, 4);
    ReadBack(0xD61F0120, 4);
  }

  /** A mapping the kernel makes: new zeroed bytes, or nothing on an error. */
  ghost predicate MmapRule(e: Effect, m: Mem, length: nat) {
    if MmapError(e.result) then e.writes == map[]
    else NewPages(e.writes, e.result, length) && e.writes.Keys !! m.Keys
  }

  ghost predicate MmapWrites(m: Mem, writes: Mem, result: nat, length: nat) {
    MmapRule(Effect(result, writes, map[]), m, length)
  }

  /** Nothing has changed but what was written, and nothing at all in the code. */
  ghost predicate Transparent(before: Mem, after: Mem, writes: Mem, ip: nat, n: nat) {
    && Mapped(before, ip, n)
    && (forall x :: x in after <==> x in before || x in writes)
    && (forall x :: x in after ==>
          after[x] == if ip <= x < ip + n then before[x] else if x in writes then writes[x] else before[x])
  }

  lemma RestoredIsTransparent(m: Mem, writes: Mem, ip: nat, instr: seq<byte>)
    requires Mapped(m, ip, |instr|)
    ensures Transparent(m, Store(Store(m, ip, instr) + writes, ip, Load(m, ip, |instr|)), writes, ip, |instr|)
  {}

  lemma InstrInPlace(m: Mem, ip: nat, instr: seq<byte>)
    requires Mapped(m, ip, |instr|)
    ensures Mapped(Store(m, ip, instr), ip, |instr|) && Load(Store(m, ip, instr), ip, |instr|) == instr
  {}

  lemma StillMapped(m: Mem, writes: Mem, ip: nat, n: nat)
    requires Mapped(m, ip, n)
    ensures Mapped(m + writes, ip, n)
  {}

  /** The kernel saw the patched memory, but the addresses in use are the same. */
  lemma PatchedMapping(m: Mem, ip: nat, instr: seq<byte>, e: Effect, length: nat)
    requires Mapped(m, ip, |instr|) && MmapRule(e, Store(m, ip, instr), length)
    ensures MmapWrites(m, e.writes, e.result, length)
  {
    assert Store(m, ip, instr).Keys == m.Keys;
  }

  lemma TransparentMapping(before: Mem, after: Mem, writes: Mem, ip: nat, n: nat)
    requires Transparent(before, after, writes, ip, n) && writes.Keys !! before.Keys
    ensures after == before + writes
  {}
}

// Stopping every thread of a process that keeps spawning them.  The process is an
// adversary: between any two system calls its running threads may spawn and any of its
// threads may die.  Listings are atomic and thread ids are not reused.
module StopWorld {
  datatype Option<+T> = None | Some(value: T)

  /** live: the threads there are.  traced: those seized and not released.  stopped: those
      seen to stop.  ever: every thread id used so far.  calls: system calls made. */
  datatype World = World(live: set<int>, traced: set<int>, stopped: set<int>, ever: set<int>, calls: nat)
  {
    ghost predicate Valid() {
      live <= ever && stopped <= traced <= ever
    }

    /** No thread is left that could spawn. */
    ghost predicate Frozen() { live <= stopped }
  }

  /** What the process may do by itself, in any number of spawns and exits. */
  ghost predicate Moves(w: World, v: World) {
    && v.traced == w.traced && v.stopped == w.stopped && v.calls == w.calls
    && w.ever <= v.ever && v.live <= w.live + (v.ever - w.ever)
    && (w.Frozen() ==> v.ever == w.ever)
  }

  /** A stopped process stays stopped: nothing it does adds a thread. */
  lemma FrozenStays(w: World, v: World)
    requires w.Frozen() && Moves(w, v)
    ensures v.Frozen() && v.live <= w.live
  {}

  /** Nothing has come back to life between two points. */
  ghost predicate Since(u: World, v: World) {
    u.ever <= v.ever && v.live <= u.live + (v.ever - u.ever)
  }

  /** A thread there was at some time between the two points, and that is no more. */
  ghost predicate Died(u: World, v: World, t: int) {
    (t in u.live || t !in u.ever) && t in v.ever && t !in v.live
  }

  /** What a system call is for; or where an attempt failed, if anywhere. */
  datatype Stage = Nowhere | Listing | Seizing | Interrupting | Waiting | Mapping | Releasing
  {
    /** The thread concerned had been seized and was not seen to stop. */
    predicate Seized() { Interrupting? || Waiting? }
  }

  /** A system call made: what for, and for which thread, or zero. */
  datatype Step = Step(stage: Stage, t: int)

  type Moving = World -> World
  type Listing = World -> seq<int>

  class Process {
    var w: World
    // How the process moves, how /proc lists it, and which calls fail: all arbitrary.
    const env: Moving
    const list: Listing
    const fails: nat -> bool
    ghost const bound: nat
    // Every system call made.
    ghost var log: seq<Step>

    constructor (w: World, env: Moving, list: Listing, fails: nat -> bool, ghost bound: nat)
      requires w.calls == 0
      ensures log == []
      ensures this.w == w && this.env == env && this.list == list && this.fails == fails && this.bound == bound
    {
      this.w, this.env, this.list, this.fails, this.bound, log := w, env, list, fails, bound, [];
    }

    /** The process plays by the rules and never has more than `bound` threads in all. */
    ghost predicate Rules() {
      && (forall u: World :: Moves(u, env(u)))
      && (forall u: World, t: int :: t in list(u) <==> t in u.live)
      && (forall u: World :: |u.ever| <= bound ==> |env(u).ever| <= bound)
    }

    ghost predicate Valid() reads this {
      Rules() && w.Valid() && |w.ever| <= bound && |log| == w.calls
    }

    /** No call failed between two points. */
    predicate NoFailure(from: nat, to: nat) {
      forall c :: from <= c < to ==> !fails(c)
    }

    /** A system call: the process has moved on meanwhile, and the call may fail. */
    method Call(ghost step: Step) returns (ok: bool)
      requires Valid()
      modifies this
      ensures log == old(log) + [step]
      ensures Valid() && Moves(old(w), w.(calls := old(w.calls)))
      ensures w == env(old(w)).(calls := old(w.calls) + 1)
      ensures ok <==> !fails(old(w.calls))
    {
      assert Moves(w, env(w));
      ok := !fails(w.calls);
      w, log := env(w).(calls := w.calls + 1), log + [step];
    }

    method ReadTasks() returns (r: Option<seq<int>>)
      requires Valid()
      modifies this
      ensures log == old(log) + [Step(Listing, 0)]
      ensures Valid() && Moves(old(w), w.(calls := old(w.calls))) && w.calls == old(w.calls) + 1
      ensures r.Some? <==> !fails(old(w.calls))
      ensures r.Some? ==> r.value == list(w) && forall t :: t in r.value <==> t in w.live
      ensures w == env(old(w)).(calls := old(w.calls) + 1)
    {
      var ok := Call(Step(Listing, 0));
      if !ok { return None; }
      return Some(list(w));
    }

    /** PTRACE_SEIZE: the thread keeps running.  A dead thread cannot be seized. */
    method Seize(t: int) returns (ok: bool)
      requires Valid()
      modifies this
      ensures log == old(log) + [Step(Seizing, t)]
      ensures Valid() && w.calls == old(w.calls) + 1
      ensures Moves(old(w), w.(calls := old(w.calls), traced := old(w.traced)))
      ensures w.traced == if ok then old(w.traced) + {t} else old(w.traced)
      ensures ok <==> !fails(old(w.calls)) && t in env(old(w)).live
      ensures ok ==> t in w.live
      ensures w.live == env(old(w)).live
    {
      ok := Call(Step(Seizing, t));
      if !ok || t !in w.live { return false; }
      w := w.(traced := w.traced + {t});
      return true;
    }

    /** PTRACE_INTERRUPT: it is for threads that have been seized. */
    method Interrupt(t: int) returns (ok: bool)
      requires Valid() && t in w.traced
      modifies this
      ensures log == old(log) + [Step(Interrupting, t)]
      ensures Valid() && Moves(old(w), w.(calls := old(w.calls))) && w.calls == old(w.calls) + 1
      ensures ok <==> !fails(old(w.calls))
      ensures w.live == env(old(w)).live
    {
      ok := Call(Step(Interrupting, t));
    }

    /** wait4 on one thread: it returns when the thread has stopped or died.  For a thread that
        nobody has interrupted that could be never. */
    method Wait(t: int) returns (ok: bool)
      requires Valid() && t in w.traced && Step(Interrupting, t) in log
      modifies this
      ensures log == old(log) + [Step(Waiting, t)]
      ensures Valid() && w.calls == old(w.calls) + 1
      ensures Moves(old(w), w.(calls := old(w.calls), stopped := old(w.stopped)))
      ensures w.stopped == if ok then old(w.stopped) + {t} else old(w.stopped)
      ensures ok <==> !fails(old(w.calls))
      ensures w.live == env(old(w)).live
    {
      ok := Call(Step(Waiting, t));
      if !ok { return; }
      w := w.(stopped := w.stopped + {t});
    }

    /** PTRACE_DETACH: it works on a stopped, live tracee, which then runs again; for any
        other thread there is no such process; and it may be refused. */
    method PtraceDetach(t: int) returns (r: Freed)
      requires Valid()
      modifies this
      ensures log == old(log) + [Step(Releasing, t)]
      ensures Valid() && w.calls == old(w.calls) + 1
      ensures Moves(old(w), w.(calls := old(w.calls), traced := old(w.traced), stopped := old(w.stopped)))
      ensures r.Refused? <==> fails(old(w.calls))
      ensures r.NoSuchProcess? ==> t !in w.live || t !in old(w.stopped)
      ensures r.Freed? ==> t in w.live && t in old(w.stopped)
      ensures w.traced == (if r.Freed? then old(w.traced) - {t} else old(w.traced))
      ensures w.stopped == (if r.Freed? then old(w.stopped) - {t} else old(w.stopped))
      ensures w.live == env(old(w)).live
    {
      var ok := Call(Step(Releasing, t));
      if !ok { return Refused; }
      if t !in w.live || t !in w.stopped { return NoSuchProcess; }
      w := w.(traced := w.traced - {t}, stopped := w.stopped - {t});
      return Freed;
    }
  }

  datatype Freed = Freed | NoSuchProcess | Refused

  function Elements(s: seq<int>): set<int> { set t | t in s }

  predicate Sorted(s: seq<int>) { forall i, j :: 0 <= i < j < |s| ==> s[i] < s[j] }

  lemma Inhabited(s: set<int>)
    ensures s == {} || exists t :: t in s
  {
    if forall t :: t !in s { assert s == {}; }
  }

  /** The keys of the thread map, sorted. */
  method SortedTids(tids: set<int>) returns (s: seq<int>)
    ensures Sorted(s) && Elements(s) == tids
  {
    s := [];
    var left := tids;
    while left != {}
      invariant left <= tids && Elements(s) == tids - left
      invariant Sorted(s) && forall a, b :: a in s && b in left ==> a < b
      decreases |left|
    {
      Inhabited(left);
      var least :| least in left;
      least := Least(left, least);
      Appended(s, least);
      s, left := s + [least], left - {least};
    }
  }

  lemma Appended(s: seq<int>, t: int)
    requires Sorted(s) && forall a :: a in s ==> a < t
    ensures Sorted(s + [t]) && Elements(s + [t]) == Elements(s) + {t}
    ensures forall a :: a in s + [t] <==> a in s || a == t
  {
    assert forall i :: 0 <= i < |s| ==> s[i] in s;
  }

  method Least(s: set<int>, start: int) returns (m: int)
    requires start in s
    ensures m in s && forall t :: t in s ==> m <= t
  {
    m := start;
    var left := s - {start};
    while left != {}
      invariant m in s && left <= s && forall u :: u in s && u !in left ==> m <= u
      decreases |left|
    {
      Inhabited(left);
      var t :| t in left;
      if t < m { m := t; }
      left := left - {t};
    }
  }

  predicate Unique(s: seq<int>) { forall i, j :: 0 <= i < j < |s| ==> s[i] != s[j] }

  /** Which live threads are still traced after the clean-up: the one that was seized and not
      stopped, if any, and those whose release was refused. */
  ghost predicate Left(w: World, failed: int, seized: bool, refused: set<int>) {
    && (forall t :: t in w.live ==> (t in w.traced <==> (seized && t == failed) || t in refused))
    && (forall t :: t in w.live ==> (t in w.stopped <==> t in refused))
  }

  /** Some thread that lives is traced. */
  ghost predicate StillTraced(w: World) { Meets(w.live, w.traced) }

  ghost predicate Meets(a: set<int>, b: set<int>) { exists t :: t in a && t in b }

  lemma WhoIsLeft(w: World, failed: int, seized: bool, refused: set<int>)
    requires Left(w, failed, seized, refused)
    ensures StillTraced(w) <==> (seized && failed in w.live) || Meets(w.live, refused)
  {}

  /** From the n-th on the log holds the releases of these threads, in that order. */
  ghost predicate Released(log: seq<Step>, n: nat, tids: seq<int>) {
    |log| == n + |tids| && forall i :: 0 <= i < |tids| ==> log[n + i] == Step(Releasing, tids[i])
  }

  lemma OneRelease(log: seq<Step>, n: nat, tids: seq<int>, i: nat)
    requires i < |tids| && Released(log, n, tids[..i])
    ensures Released(log + [Step(Releasing, tids[i])], n, tids[..i + 1])
  {}

  lemma AllReleases(log: seq<Step>, tids: seq<int>)
    ensures tids[..|tids|] == tids && Released(log, |log|, tids[..0])
  {}

  /** The deferred clean-up: it tries every recorded thread and ignores what it is told. */
  method ReleaseAll(p: Process, attached: seq<int>, ghost failed: int, ghost seized: bool) returns (ghost refused: set<int>)
    requires p.Valid() && Unique(attached) && p.w.stopped <= Elements(attached)
    requires (seized ==> failed !in p.w.stopped) && p.w.traced == p.w.stopped + (if seized then {failed} else {})
    modifies p
    ensures p.Valid() && p.w.calls >= old(p.w.calls) && Left(p.w, failed, seized, refused)
    ensures StillTraced(p.w) <==> (seized && failed in p.w.live) || Meets(p.w.live, refused)
    ensures refused <= old(p.w.stopped)
    ensures p.NoFailure(old(p.w.calls), p.w.calls) ==> refused == {}
    ensures old(p.log) <= p.log && Since(old(p.w), p.w)
    ensures p.w.calls == old(p.w.calls) + |attached|
    ensures Lasting(p) ==> old(p.w.live) <= p.w.live
  {
    ghost var start := p.w;
    refused := {};
    for i := 0 to |attached|
      invariant p.w.calls == start.calls + i
      invariant p.Valid() && p.w.calls >= start.calls
      invariant p.w.stopped <= start.stopped && refused <= start.stopped
      invariant forall t :: t in p.w.traced <==> t in p.w.stopped || (seized && t == failed)
      invariant forall t :: t in refused ==> t in Elements(attached[..i]) && t in p.w.stopped
      invariant forall t :: t in p.w.live && t in p.w.stopped && t in Elements(attached[..i]) ==> t in refused
      invariant forall j :: i <= j < |attached| ==> (attached[j] in p.w.stopped <==> attached[j] in start.stopped)
      invariant old(p.log) <= p.log && Since(start, p.w)
      invariant p.NoFailure(start.calls, p.w.calls) ==> refused == {}
      invariant Lasting(p) ==> start.live <= p.w.live
    {
      assert Elements(attached[..i + 1]) == Elements(attached[..i]) + {attached[i]};
      var r := p.PtraceDetach(attached[i]);
      if r.Refused? && attached[i] in p.w.stopped { refused := refused + {attached[i]}; }
    }
    assert attached[..|attached|] == attached;
    assert Left(p.w, failed, seized, refused);
    WhoIsLeft(p.w, failed, seized, refused);
  }

  /** A process whose threads do not die. */
  ghost predicate Lasting(p: Process) { forall u: World :: u.live <= p.env(u).live }

  /** The threads recorded are those traced, and all have stopped. */
  ghost predicate Recorded(w: World, attached: seq<int>, tidMap: set<int>) {
    Unique(attached) && Elements(attached) == tidMap == w.stopped == w.traced
  }

  /** After a failure: what is recorded, and whether the thread at which it happened had been
      seized by then. */
  ghost predicate Halted(w: World, attached: seq<int>, failed: int, seized: bool) {
    && Unique(attached) && w.stopped <= Elements(attached)
    && (seized ==> failed !in w.stopped) && w.traced == w.stopped + (if seized then {failed} else {})
  }

  /** The last call is the one that failed: with an error, or because the thread to be seized
      was no more. */
  ghost predicate FailedLast(p: Process, from: nat, stage: Stage, t: int) reads p {
    && from < p.w.calls == |p.log| && p.log[p.w.calls - 1] == Step(stage, t)
    && p.NoFailure(from, p.w.calls - 1)
    && (p.fails(p.w.calls - 1) || (stage.Seizing? && t !in p.w.live))
  }

  /** Seize, interrupt and wait for one thread.  It stays seized if the interrupt or the wait
      fails, and only then. */
  method StopThread(p: Process, tid: int, before: seq<int>, tidMap: set<int>)
    returns (ok: bool, attached: seq<int>, ghost stage: Stage)
    requires p.Valid() && Recorded(p.w, before, tidMap) && tid !in tidMap
    modifies p
    ensures p.Valid() && p.w.calls > old(p.w.calls)
    ensures ok ==> Recorded(p.w, attached, tidMap + {tid})
    ensures !ok ==> Halted(p.w, attached, tid, stage.Seized())
    ensures stage == if p.fails(old(p.w.calls)) || tid !in p.env(old(p.w)).live then Seizing
                     else if p.fails(old(p.w.calls) + 1) then Interrupting
                     else if p.fails(old(p.w.calls) + 2) then Waiting else Nowhere
    ensures ok <==> stage.Nowhere?
    ensures ok ==> p.NoFailure(old(p.w.calls), p.w.calls)
    ensures !ok ==> FailedLast(p, old(p.w.calls), stage, tid)
    ensures old(p.log) <= p.log && Since(old(p.w), p.w)
    ensures Lasting(p) ==> old(p.w.live) <= p.w.live
    ensures tid in old(p.w.live) && FailsSeized(p, old(p.w.calls)) ==> stage.Seized() && tid in p.w.live
  {
    hide Process.Rules, Sorted, World.Frozen;
    attached := before;
    ok := p.Seize(tid);
    if !ok { stage := Seizing; return; }
    ok, attached, stage := StopSeized(p, tid, before, tidMap);
  }

  /** The interrupt and the wait; the thread is recorded in between. */
  method StopSeized(p: Process, tid: int, before: seq<int>, tidMap: set<int>)
    returns (ok: bool, attached: seq<int>, ghost stage: Stage)
    requires p.Valid() && Unique(before) && Elements(before) == tidMap == p.w.stopped && tid !in tidMap
    requires p.w.traced == tidMap + {tid}
    modifies p
    ensures p.Valid() && p.w.calls > old(p.w.calls)
    ensures ok ==> Recorded(p.w, attached, tidMap + {tid})
    ensures !ok ==> Halted(p.w, attached, tid, true)
    ensures stage == if p.fails(old(p.w.calls)) then Interrupting else if p.fails(old(p.w.calls) + 1) then Waiting else Nowhere
    ensures ok <==> stage.Nowhere?
    ensures ok ==> p.NoFailure(old(p.w.calls), p.w.calls)
    ensures !ok ==> FailedLast(p, old(p.w.calls), stage, tid)
    ensures old(p.log) <= p.log && Since(old(p.w), p.w)
    ensures Lasting(p) ==> old(p.w.live) <= p.w.live
  {
    hide Process.Rules, Sorted, World.Frozen;
    attached := before;
    ok := p.Interrupt(tid);
    if !ok { stage := Interrupting; return; }
    attached := attached + [tid];
    assert Elements(attached) == tidMap + {tid};
    assert forall i :: 0 <= i < |before| ==> before[i] in Elements(before);
    ok := p.Wait(tid);
    stage := if ok then Nowhere else Waiting;
  }

  /** The process has a thread, none dies, and the first interrupt or the wait after it fails. */
  ghost predicate FirstFails(p: Process, w: World) {
    w.live != {} && !p.fails(w.calls) && FailsSeized(p, w.calls + 1)
  }

  /** With this call the next thread is seized, and then its interrupt or its wait fails. */
  ghost predicate FailsSeized(p: Process, call: nat) {
    Lasting(p) && !p.fails(call) && (p.fails(call + 1) || p.fails(call + 2))
  }

  lemma Lasts(p: Process, u: World)
    ensures Lasting(p) ==> u.live <= p.env(u).live
    ensures FirstFails(p, u) ==> u.live != {} && !p.fails(u.calls) && FailsSeized(p, u.calls + 1) && Lasting(p)
  {}

  lemma StillRecorded(w: World, v: World, attached: seq<int>, tidMap: set<int>, failed: int)
    requires Recorded(w, attached, tidMap) && v.traced == w.traced && v.stopped == w.stopped
    ensures Recorded(v, attached, tidMap) && Halted(v, attached, failed, false)
  {}

  lemma MovesSince(u: World, v: World)
    requires Moves(u, v.(calls := u.calls))
    ensures Since(u, v)
  {}

  lemma SinceSame(u: World)
    ensures Since(u, u)
  {}

  lemma SinceTrans(u: World, v: World, w: World)
    requires Since(u, v) && Since(v, w)
    ensures Since(u, w)
  {}

  lemma ListedDied(u: World, listed: World, w: World, t: int)
    requires Since(u, listed) && Since(listed, w) && listed.Valid() && t in listed.live && t !in w.live
    ensures Died(u, w, t)
  {}

  lemma DiedWithin(u: World, v: World, w: World, x: World, t: int)
    requires Since(u, v) && Died(v, w, t) && Since(w, x)
    ensures Died(u, x, t)
  {}

  /** One listing, and the stopping of every thread in it that is new.  `failed` is the
      thread at which it gave up. */
  method Pass(p: Process, before: seq<int>, known: set<int>)
      returns (ok: bool, subset: bool, tids: set<int>, attached: seq<int>, tidMap: set<int>, ghost failed: int, ghost stage: Stage)
    requires p.Valid() && Recorded(p.w, before, known)
    modifies p
    ensures p.Valid() && p.w.calls > old(p.w.calls)
    ensures ok ==> Recorded(p.w, attached, tidMap) && tids <= tidMap
    ensures ok && subset ==> tidMap == known && p.w.live == tids
    ensures ok && !subset ==> known < tidMap
    ensures !ok ==> Halted(p.w, attached, failed, stage.Seized())
    ensures ok ==> p.NoFailure(old(p.w.calls), p.w.calls)
    ensures !ok ==> FailedLast(p, old(p.w.calls), stage, failed)
    ensures !ok && !p.fails(p.w.calls - 1) ==> Died(old(p.w), p.w, failed) && !Lasting(p)
    ensures old(p.log) <= p.log && Since(old(p.w), p.w)
    ensures known == {} && FirstFails(p, old(p.w)) ==> !ok && stage.Seized() && failed in p.w.live
    ensures ok <==> stage.Nowhere?
  {
    hide Recorded, Halted, FirstFails, FailsSeized, Lasting, Since, Died, Process.Rules, Unique, World.Valid, World.Frozen;
    ok, subset, tids, attached, tidMap, failed, stage := true, true, {}, before, known, 0, Nowhere;
    var tasks := p.ReadTasks();
    Lasts(p, old(p.w));
    ghost var start := old(p.w);
    MovesSince(start, p.w);
    StillRecorded(old(p.w), p.w, attached, tidMap, failed);
    if tasks.None? {
      ok, stage := false, Listing;
      return;
    }
    var threads := tasks.value;
    ghost var listed := p.w;
    SinceSame(listed);
    for j := 0 to |threads|
      invariant ok && stage.Nowhere? && p.Valid() && Recorded(p.w, attached, tidMap) && p.w.calls > old(p.w.calls)
      invariant tids == Elements(threads[..j]) && tids <= tidMap
      invariant if subset then tidMap == known && p.w == listed else known < tidMap
      invariant p.NoFailure(old(p.w.calls), p.w.calls)
      invariant Lasting(p) ==> listed.live <= p.w.live
      invariant old(p.log) <= p.log && Since(start, listed) && Since(listed, p.w)
      invariant known == {} && FirstFails(p, old(p.w)) ==> j == 0 && subset
    {
      var tid := threads[j];
      assert Elements(threads[..j + 1]) == Elements(threads[..j]) + {tid};
      if tid !in tidMap {
        subset := false;
        failed := tid;
        ghost var u := p.w;
        ok, attached, stage := StopThread(p, tid, attached, tidMap);
        SinceTrans(listed, u, p.w);
        if !ok {
          SinceTrans(start, listed, p.w);
          if tid !in p.w.live { ListedDied(start, listed, p.w, tid); }
          return;
        }
        tidMap := tidMap + {tid};
      }
      tids := tids + {tid};
    }
    assert threads[..|threads|] == threads;
    SinceTrans(start, listed, p.w);
    if subset { SameElements(threads, p.w.live); }
  }

  lemma SameElements(s: seq<int>, e: set<int>)
    requires forall t :: t in s <==> t in e
    ensures Elements(s) == e
  {
    assert forall t :: t in Elements(s) <==> t in e;
  }

  lemma SubsetSize(a: set<int>, b: set<int>)
    requires a <= b
    ensures |a| <= |b|
  {
    if a != {} {
      Inhabited(a);
      var t :| t in a;
      SubsetSize(a - {t}, b - {t});
    }
  }

  lemma Grew(a: set<int>, b: set<int>)
    requires a < b
    ensures |a| < |b|
  {
    Inhabited(b - a);
    var t :| t in b - a;
    SubsetSize(a, b - {t});
  }

  /** Trace.  It lists the threads and stops those it has not seen, again and again, until a
      listing holds none.  Then every live thread is stopped, so none can have been spawned
      since.  On an error all that were stopped run again, but for those whose release was
      refused; and a thread that was seized and could not be stopped is still traced.  The error
      is that of the first call that failed, or of seizing a thread that has died since it was
      listed; without either there is none. */
  method Trace(p: Process)
    returns (r: Option<seq<int>>, ghost failed: int, ghost stage: Stage, ghost refused: set<int>, ghost at: nat)
    requires p.Valid() && p.w.traced == {}
    modifies p
    ensures p.Valid()
    ensures r.Some? ==>
              && p.w.Frozen() && p.w.live <= Elements(r.value) <= p.w.stopped
              && Sorted(r.value)
    ensures r.Some? <==> stage.Nowhere?
    ensures r.None? ==> Left(p.w, failed, stage.Seized(), refused)
    ensures r.None? ==>
              (StillTraced(p.w) <==> (stage.Seized() && failed in p.w.live) || Meets(p.w.live, refused))
    ensures p.NoFailure(old(p.w.calls), p.w.calls) ==> !stage.Seized() && refused == {}
    ensures r.Some? ==> p.NoFailure(old(p.w.calls), p.w.calls)
    ensures r.None? ==>
              && old(p.w.calls) <= at < p.w.calls && p.log[at] == Step(stage, failed) && p.NoFailure(old(p.w.calls), at)
              && (p.fails(at) || (stage.Seizing? && Died(old(p.w), p.w, failed)))
    ensures p.NoFailure(old(p.w.calls), p.w.calls) && (Lasting(p) || forall t :: !Died(old(p.w), p.w, t)) ==> r.Some?
    ensures FirstFails(p, old(p.w)) ==> stage.Seized() && failed in p.w.live
  {
    hide FirstFails, FailsSeized, Lasting, Process.Rules, Sorted, Left, StillTraced, Meets, Since, Died;
    Lasts(p, p.w);
    var tidMap: set<int> := {};
    var attached: seq<int> := [];
    var tids: set<int>;
    ghost var start := p.w;
    SinceSame(start);
    refused, stage, failed, at := {}, Nowhere, 0, 0;
    while true
      invariant p.Valid() && Recorded(p.w, attached, tidMap) && p.w.calls >= old(p.w.calls) && stage.Nowhere? && refused == {}
      invariant p.NoFailure(old(p.w.calls), p.w.calls) && Since(start, p.w)
      invariant FirstFails(p, start) ==> p.w == start && tidMap == {}
      decreases p.bound - |tidMap|
    {
      ghost var before := tidMap;
      var ok, subset;
      ok, subset, tids, attached, tidMap, failed, stage, refused, at := PassOrRelease(p, attached, tidMap, start);
      if !ok { return None, failed, stage, refused, at; }
      if subset { break; }
      SubsetSize(tidMap, p.w.ever);
      Grew(before, tidMap);
    }
    failed, at := 0, p.w.calls;
    r, refused := ReadMaps(p, tids, attached);
    stage := if r.Some? then Nowhere else Mapping;
  }

  /** A pass, and the clean-up if it fails. */
  method PassOrRelease(p: Process, before: seq<int>, known: set<int>, ghost start: World)
    returns (ok: bool, subset: bool, tids: set<int>, attached: seq<int>, tidMap: set<int>,
             ghost failed: int, ghost stage: Stage, ghost refused: set<int>, ghost at: nat)
    requires p.Valid() && Recorded(p.w, before, known) && Since(start, p.w)
    requires start.calls <= p.w.calls && p.NoFailure(start.calls, p.w.calls)
    modifies p
    ensures p.Valid() && p.w.calls > old(p.w.calls) && (ok <==> stage.Nowhere?)
    ensures ok ==> Recorded(p.w, attached, tidMap) && tids <= tidMap && refused == {}
    ensures ok ==> p.NoFailure(start.calls, p.w.calls) && Since(start, p.w)
    ensures ok && subset ==> tidMap == known && p.w.live == tids
    ensures ok && !subset ==> known < tidMap
    ensures !ok ==> Left(p.w, failed, stage.Seized(), refused)
    ensures !ok ==> (StillTraced(p.w) <==> (stage.Seized() && failed in p.w.live) || Meets(p.w.live, refused))
    ensures !ok ==>
              && start.calls <= at < p.w.calls && p.log[at] == Step(stage, failed) && p.NoFailure(start.calls, at)
              && (p.fails(at) || (stage.Seizing? && Died(start, p.w, failed) && !Lasting(p)))
    ensures p.NoFailure(start.calls, p.w.calls) ==> !stage.Seized() && refused == {}
    ensures known == {} && FirstFails(p, old(p.w)) ==> !ok && stage.Seized() && failed in p.w.live
  {
    hide FirstFails, FailsSeized, Lasting, Process.Rules, Left, StillTraced, Meets, Since, Died, Unique, World.Valid;
    ghost var u := p.w;
    refused, at := {}, 0;
    ok, subset, tids, attached, tidMap, failed, stage := Pass(p, before, known);
    SinceTrans(start, u, p.w);
    if ok { return; }
    at := p.w.calls - 1;
    ghost var v := p.w;
    Lasts(p, u);
    refused := ReleaseAll(p, attached, failed, stage.Seized());
    if !p.fails(at) { DiedWithin(start, u, v, p.w, failed); }
  }

  /** What is left to do once every thread has stopped. */
  method ReadMaps(p: Process, tids: set<int>, attached: seq<int>) returns (r: Option<seq<int>>, ghost refused: set<int>)
    requires p.Valid() && p.w.Frozen() && p.w.live == tids && Recorded(p.w, attached, p.w.stopped)
    modifies p
    ensures p.Valid() && p.w.calls > old(p.w.calls)
    ensures r.Some? <==> !p.fails(old(p.w.calls))
    ensures p.log[old(p.w.calls)] == Step(Mapping, 0)
    ensures r.Some? ==>
              && p.w.Frozen() && p.w.live <= Elements(r.value) <= p.w.stopped
              && Sorted(r.value) && p.w.calls == old(p.w.calls) + 1 && refused == {}
    ensures r.None? ==>
              && Left(p.w, 0, false, refused)
              && (StillTraced(p.w) <==> Meets(p.w.live, refused))
  {
    hide Process.Rules, Sorted, Left, StillTraced, Meets, Since;
    var list := SortedTids(tids);
    ghost var frozen := p.w;
    refused := {};
    var maps := p.Call(Step(Mapping, 0));
    FrozenStays(frozen, p.w.(calls := frozen.calls));
    if maps { return Some(list), refused; }
    refused := ReleaseAll(p, attached, 0, false);
    r := None;
  }

  /** Detach: it releases the threads one by one, and returns early when a release is
      refused: then exactly those from there on stay traced. */
  method Detach(p: Process, tids: seq<int>) returns (ok: bool, ghost n: nat)
    requires p.Valid() && p.w.Frozen() && p.w.live <= Elements(tids)
    modifies p
    ensures p.Valid() && n <= |tids| && (ok <==> n == |tids|)
    ensures forall t :: t in p.w.live && t in old(p.w.stopped) ==>
              && (t in p.w.traced <==> t !in Elements(tids[..n])) && (t in p.w.stopped <==> t in p.w.traced)
    ensures ok ==> forall t :: t in p.w.live && t in old(p.w.ever) ==> t !in p.w.traced && t !in p.w.stopped
    ensures p.NoFailure(old(p.w.calls), old(p.w.calls) + n) && (!ok ==> p.fails(old(p.w.calls) + n))
    ensures old(p.log) <= p.log && Released(p.log, |old(p.log)|, if ok then tids else tids[..n + 1])
  {
    hide Released;
    ghost var start := p.w;
    n := 0;
    AllReleases(p.log, tids);
    for i := 0 to |tids|
      invariant p.Valid() && n == i && p.w.calls == start.calls + i
      invariant p.w.traced <= start.traced && p.w.stopped <= start.stopped
      invariant forall t :: t in start.stopped ==> (t in p.w.stopped <==> t in p.w.traced)
      invariant forall t :: t in start.stopped && t !in Elements(tids[..i]) ==> t in p.w.stopped
      invariant forall t :: t in p.w.live && t in Elements(tids[..i]) ==> t !in p.w.stopped
      invariant start.ever <= p.w.ever && p.w.live * start.ever <= start.live
      invariant p.NoFailure(start.calls, p.w.calls) && old(p.log) <= p.log && Released(p.log, |old(p.log)|, tids[..i])
    {
      assert Elements(tids[..i + 1]) == Elements(tids[..i]) + {tids[i]};
      OneRelease(p.log, |old(p.log)|, tids, i);
      var r := p.PtraceDetach(tids[i]);
      if r.Refused? { return false, n; }
      n := n + 1;
    }
    forall t | t in p.w.live && t in start.ever ensures t !in p.w.traced && t !in p.w.stopped {
      assert t in start.live && t in Elements(tids);
    }
    return true, n;
  }

  // ---------------------------------------------------------------- a thread that stays traced

  /** A process of one thread that does nothing, whose first interrupt, the third call, will
      fail. */
  method Uninterruptible() returns (p: Process)
    ensures fresh(p) && p.Valid() && p.w.traced == {} && FirstFails(p, p.w)
  {
    p := new Process(World({7}, {}, {}, {7}, 0), (u: World) => u, (u: World) => Listed(u.live), (c: nat) => c == 2, 1);
  }

  /** Tracing such a process fails, and after the clean-up a thread that lives is traced. */
  method InterruptFails(p: Process) returns (r: Option<seq<int>>)
    requires p.Valid() && p.w.traced == {} && FirstFails(p, p.w)
    modifies p
    ensures r.None? && StillTraced(p.w)
  {
    ghost var failed, stage, refused, at;
    r, failed, stage, refused, at := Trace(p);
  }

  /** Some listing of a set: its least element first. */
  function Listed(s: set<int>): (l: seq<int>)
    ensures forall t :: t in l <==> t in s
    decreases |s|
  {
    if s == {} then []
    else
      HasLeast(s);
      var m :| m in s && forall t :: t in s ==> m <= t;
      [m] + Listed(s - {m})
  }

  lemma {:induction false} HasLeast(s: set<int>)
    requires s != {}
    ensures exists m :: m in s && forall t :: t in s ==> m <= t
    decreases |s|
  {
    Inhabited(s);
    var u :| u in s;
    if s - {u} != {} {
      HasLeast(s - {u});
      var m :| m in s - {u} && forall t :: t in s - {u} ==> m <= t;
      LeastOf(s, u, m);
    } else {
      assert s == {u};
    }
  }

  lemma LeastOf(s: set<int>, u: int, m: int)
    requires u in s && m in s && forall t :: t in s - {u} ==> m <= t
    ensures exists b :: b in s && forall t :: t in s ==> b <= t
  {
    var b := if u < m then u else m;
    forall t | t in s ensures b <= t { assert t == u || t in s - {u}; }
    assert b in s;
  }
}

/**
 controller/ptrace/ptrace.go: running a system call inside a stopped thread by planting
 a `syscall` instruction at its program counter, and putting everything back.
 */
module Injection {
  import opened Results
  import opened Kernel
  import opened Layout
  import opened Tracing

  /** What the injected call itself does to the process. */
  function Effect(p: Proc, number: int, arg1: nat, arg2: nat): Proc {
    Commit(p, SyscallChange(p.regions, p.brk, number, arg1, arg2))
  }

  function Returned(p: Proc, number: int, arg1: nat, arg2: nat): int {
    SyscallValue(p.regions, p.brk, number, arg1, arg2)
  }

  /** The two bytes at the program counter of the thread are there before the call and after it. */
  predicate Injectable(p: Proc, tid: int, number: int, arg1: nat, arg2: nat) {
    && tid in p.regs
    && (var pc := p.regs[tid].rip;
        var q := Effect(p, number, arg1, arg2);
        && pc in p.mem && pc + 1 in p.mem
        && pc in q.mem && pc + 1 in q.mem)
  }

  /** The pages of the two bytes at the program counter of the thread. */
  function CodePages(p: Proc, tid: int): set<int>
    requires tid in p.regs
  {
    {Page(p.regs[tid].rip), Page(p.regs[tid].rip + 1)}
  }

  /** The process after a call that was injected into thread tid: the effect of the call, and the
      dirty bits of the code that was changed and changed back. */
  function Injected(p: Proc, tid: int, number: int, arg1: nat, arg2: nat): Proc
    requires tid in p.regs
  {
    var e := Effect(p, number, arg1, arg2);
    e.(dirty := e.dirty + CodePages(p, tid))
  }

  /** The same process image, with perhaps more dirty bits. */
  ghost predicate SameUpToDirty(p: Proc, q: Proc) {
    q == p.(dirty := q.dirty) && p.dirty <= q.dirty
  }

  /** A system call hands out only addresses that were free. */
  lemma FreshIsFree(p: Proc, number: int, arg1: nat, arg2: nat, a: int)
    requires Consistent(p) && a in p.mem
    ensures var c := SyscallChange(p.regions, p.brk, number, arg1, arg2); !(c.freshLo <= a < c.freshHi)
  {
    if number == SYS_BRK && BrkAllowed(p.regions, arg1) && Heap(p.regions).end <= a < AlignUp(arg1) {
      GrowthIsFree(p.regions, arg1, a);
    }
  }

  /** Committing a change to an image whose two bytes at pc were swapped, and swapping them
      back afterwards, is committing the change and dirtying their pages. */
  lemma CommitUnderPatch(p: Proc, c: Change, pc: int, code: seq<Bytes.Byte>)
    requires pc in p.mem && pc + 1 in p.mem && |code| == 2
    requires !(c.goneLo <= pc < c.goneHi) && !(c.goneLo <= pc + 1 < c.goneHi)
    requires !(c.freshLo <= pc < c.freshHi) && !(c.freshLo <= pc + 1 < c.freshHi)
    ensures Poke(Commit(Poke(p, pc, code), c), pc, [p.mem[pc], p.mem[pc + 1]])
         == Commit(p, c).(dirty := Commit(p, c).dirty + {Page(pc), Page(pc + 1)})
  {
    var q := Commit(Poke(p, pc, code), c);
    CommitOfPatched(p, c, pc, code);
    hide Commit;
    var back := q.mem[pc := p.mem[pc]][pc + 1 := p.mem[pc + 1]];
    assert Commit(p, c).mem == back;
  }

  /** The change takes the two bytes of the patch, or leaves them. */
  lemma CommitOfPatched(p: Proc, c: Change, pc: int, code: seq<Bytes.Byte>)
    requires pc in p.mem && pc + 1 in p.mem && |code| == 2
    requires !(c.freshLo <= pc < c.freshHi) && !(c.freshLo <= pc + 1 < c.freshHi)
    ensures var e, m := Commit(p, c), Commit(Poke(p, pc, code), c);
            && m == e.(mem := m.mem, dirty := e.dirty + {Page(pc), Page(pc + 1)})
            && e.mem.Keys == m.mem.Keys
            && (pc in e.mem <==> !(c.goneLo <= pc < c.goneHi))
            && (pc + 1 in e.mem <==> !(c.goneLo <= pc + 1 < c.goneHi))
            && (pc in e.mem ==> e.mem[pc] == p.mem[pc])
            && (pc + 1 in e.mem ==> e.mem[pc + 1] == p.mem[pc + 1] && m.mem[pc + 1] == code[1])
            && forall a :: a in e.mem && a != pc && a != pc + 1 ==> m.mem[a] == e.mem[a]
  {
    hide Pages, Page, Zeros;
    var e, m := Commit(p, c), Commit(Poke(p, pc, code), c);
    assert forall a :: a in e.mem <==> a in m.mem;
  }

  /** A thread's registers on entry to the injected call. */
  function Loaded(start: Regs, number: int, arg1: nat, arg2: nat): Regs {
    start.(rax := number, rdi := arg1, rsi := arg2)
  }

  /** The image after the thread has stepped over the planted instruction. */
  function Midway(p: Proc, tid: int, number: int, arg1: nat, arg2: nat): Proc
    requires tid in p.regs
  {
    var start := p.regs[tid];
    SingleStep(Poke(p, start.rip, SYSCALL_CODE).(regs := p.regs[tid := Loaded(start, number, arg1, arg2)]), tid)
  }

  /** Stepping over the planted instruction commits the call to the patched image. */
  lemma StepsOver(p: Proc, tid: int, number: int, arg1: nat, arg2: nat)
    requires tid in p.regs && p.regs[tid].rip in p.mem && p.regs[tid].rip + 1 in p.mem
    ensures var start := p.regs[tid];
            var poked := Poke(p, start.rip, SYSCALL_CODE);
            var q := Midway(p, tid, number, arg1, arg2);
            && tid in q.regs
            && q.regs[tid := start] == p.regs
            && q.regs[tid].rax == Returned(p, number, arg1, arg2)
            && q == Commit(poked, SyscallChange(p.regions, p.brk, number, arg1, arg2)).(regs := q.regs)
            && q.mem.Keys == Effect(p, number, arg1, arg2).mem.Keys
            && q.regions == Effect(p, number, arg1, arg2).regions
  {
    hide SyscallChange, SyscallValue;
    var c := SyscallChange(p.regions, p.brk, number, arg1, arg2);
    PokeKeepsLayout(p, p.regs[tid].rip, SYSCALL_CODE, c);
  }

  /** Planting two bytes changes neither what is mapped nor the registers. */
  lemma PokeKeepsLayout(p: Proc, pc: int, code: seq<Bytes.Byte>, c: Change)
    requires pc in p.mem && pc + 1 in p.mem && |code| == 2
    ensures var poked := Poke(p, pc, code);
            && poked.regions == p.regions && poked.brk == p.brk && poked.regs == p.regs
            && Commit(poked, c).mem.Keys == Commit(p, c).mem.Keys
            && Commit(poked, c).regions == Commit(p, c).regions
            && Commit(poked, c).regs == p.regs
  {
  }

  /** Putting the code and the registers back into the image m completes the call. */
  ghost predicate Mendable(p: Proc, tid: int, number: int, arg1: nat, arg2: nat, m: Proc) {
    && tid in p.regs && tid in m.regs
    && m.regs[tid := p.regs[tid]] == p.regs
    && m.mem.Keys == Effect(p, number, arg1, arg2).mem.Keys
    && (Injectable(p, tid, number, arg1, arg2) ==>
          var pc := p.regs[tid].rip;
          Poke(m, pc, [p.mem[pc], p.mem[pc + 1]]).(regs := p.regs) == Injected(p, tid, number, arg1, arg2))
  }

  lemma SameRegs(q: Proc, m: Proc, pc: int, two: seq<Bytes.Byte>)
    requires |two| == 2 && m == q.(regs := m.regs)
    ensures Poke(m, pc, two).(regs := q.regs) == Poke(q, pc, two)
  {
  }

  lemma StillMapped(p: Proc, tid: int, number: int, arg1: nat, arg2: nat)
    requires Consistent(p) && Injectable(p, tid, number, arg1, arg2)
    ensures var c, pc := SyscallChange(p.regions, p.brk, number, arg1, arg2), p.regs[tid].rip;
            && tid in p.regs && pc in p.mem && pc + 1 in p.mem
            && !(c.goneLo <= pc < c.goneHi) && !(c.goneLo <= pc + 1 < c.goneHi)
            && !(c.freshLo <= pc < c.freshHi) && !(c.freshLo <= pc + 1 < c.freshHi)
  {
    FreshIsFree(p, number, arg1, arg2, p.regs[tid].rip);
    FreshIsFree(p, number, arg1, arg2, p.regs[tid].rip + 1);
  }

  lemma MidwayMends(p: Proc, tid: int, number: int, arg1: nat, arg2: nat)
    requires Consistent(p) && Injectable(p, tid, number, arg1, arg2)
    ensures var pc := p.regs[tid].rip;
            var m := Midway(p, tid, number, arg1, arg2);
            Poke(m, pc, [p.mem[pc], p.mem[pc + 1]]).(regs := p.regs) == Injected(p, tid, number, arg1, arg2)
  {
    StillMapped(p, tid, number, arg1, arg2);
    InjectedIs(p, tid, number, arg1, arg2);
    MidwayIs(p, tid, number, arg1, arg2);
    var pc := p.regs[tid].rip;
    hide *;
    ChangeMends(p, SyscallChange(p.regions, p.brk, number, arg1, arg2), pc, Midway(p, tid, number, arg1, arg2));
  }

  /** m is the middle of a call that makes the change c. */
  lemma ChangeMends(p: Proc, c: Change, pc: int, m: Proc)
    requires m == Commit(Poke(p, pc, SYSCALL_CODE), c).(regs := m.regs)
    requires pc in p.mem && pc + 1 in p.mem
    requires !(c.goneLo <= pc < c.goneHi) && !(c.goneLo <= pc + 1 < c.goneHi)
    requires !(c.freshLo <= pc < c.freshHi) && !(c.freshLo <= pc + 1 < c.freshHi)
    ensures Poke(m, pc, [p.mem[pc], p.mem[pc + 1]]).(regs := p.regs)
         == Commit(p, c).(dirty := Commit(p, c).dirty + {Page(pc), Page(pc + 1)})
  {
    var q := Commit(Poke(p, pc, SYSCALL_CODE), c);
    assert q.regs == p.regs;
    hide *;
    CommitUnderPatch(p, c, pc, SYSCALL_CODE);
    SameRegs(q, m, pc, [p.mem[pc], p.mem[pc + 1]]);
  }

  lemma InjectedIs(p: Proc, tid: int, number: int, arg1: nat, arg2: nat)
    requires tid in p.regs
    ensures var e, pc := Commit(p, SyscallChange(p.regions, p.brk, number, arg1, arg2)), p.regs[tid].rip;
            Injected(p, tid, number, arg1, arg2) == e.(dirty := e.dirty + {Page(pc), Page(pc + 1)})
  {
  }

  lemma MidwayIs(p: Proc, tid: int, number: int, arg1: nat, arg2: nat)
    requires tid in p.regs && p.regs[tid].rip in p.mem && p.regs[tid].rip + 1 in p.mem
    ensures var c := SyscallChange(p.regions, p.brk, number, arg1, arg2);
            var q := Commit(Poke(p, p.regs[tid].rip, SYSCALL_CODE), c);
            var m := Midway(p, tid, number, arg1, arg2);
            m == q.(regs := m.regs) && q.regs == p.regs
  {
    StepsOver(p, tid, number, arg1, arg2);
    PokeKeepsLayout(p, p.regs[tid].rip, SYSCALL_CODE, SyscallChange(p.regions, p.brk, number, arg1, arg2));
    hide *;
  }

  lemma MidwayMendable(p: Proc, tid: int, number: int, arg1: nat, arg2: nat)
    requires Consistent(p) && tid in p.regs && p.regs[tid].rip in p.mem && p.regs[tid].rip + 1 in p.mem
    ensures Mendable(p, tid, number, arg1, arg2, Midway(p, tid, number, arg1, arg2))
  {
    hide Consistent, Midway, SingleStep, SyscallChange, SyscallValue, Commit, Poke, Injected;
    StepsOver(p, tid, number, arg1, arg2);
    if Injectable(p, tid, number, arg1, arg2) {
      MidwayMends(p, tid, number, arg1, arg2);
    }
  }

  /** The two bytes at the program counter are mapped before the call. */
  predicate CodeMapped(p: Proc, tid: int) {
    tid in p.regs && p.regs[tid].rip in p.mem && p.regs[tid].rip + 1 in p.mem
  }

  /** The process where the call is given up: the code is put back as far as it is still mapped,
      and the registers are not. */
  function Abandoned(p: Proc, tid: int, number: int, arg1: nat, arg2: nat): Proc
    requires CodeMapped(p, tid)
  {
    var pc := p.regs[tid].rip;
    PokeMapped(Midway(p, tid, number, arg1, arg2), pc, [p.mem[pc], p.mem[pc + 1]])
  }

  /** How a call that cannot be injected leaves the process: untouched when there is no code to
      replace, and otherwise where it is given up. */
  ghost predicate CallFails(p: Proc, tid: int, number: int, arg1: nat, arg2: nat, q: Proc) {
    && !Injectable(p, tid, number, arg1, arg2)
    && q == if CodeMapped(p, tid) then Abandoned(p, tid, number, arg1, arg2) else p
  }

  /** The call takes away the first of the two bytes and leaves the second. */
  predicate Torn(p: Proc, tid: int, number: int, arg1: nat, arg2: nat) {
    && CodeMapped(p, tid)
    && p.regs[tid].rip !in Effect(p, number, arg1, arg2).mem
    && p.regs[tid].rip + 1 in Effect(p, number, arg1, arg2).mem
  }

  /** The address of the planted byte that a torn call leaves. */
  function TornAt(p: Proc, tid: int, number: int, arg1: nat, arg2: nat): Option<int> {
    if Torn(p, tid, number, arg1, arg2) then Some(p.regs[tid].rip + 1) else None
  }

  /** A call that is given up has had its effect and has dirtied the pages of its code; and the
      byte that a torn one leaves is the planted one. */
  lemma AbandonedIs(p: Proc, tid: int, number: int, arg1: nat, arg2: nat)
    requires Consistent(p) && CodeMapped(p, tid) && !Injectable(p, tid, number, arg1, arg2)
    ensures var e, q := Effect(p, number, arg1, arg2), Abandoned(p, tid, number, arg1, arg2);
            var torn := Torn(p, tid, number, arg1, arg2);
            && q == e.(mem := q.mem, dirty := e.dirty + CodePages(p, tid), regs := q.regs)
            && q.mem == (if torn then e.mem[p.regs[tid].rip + 1 := SYSCALL_CODE[1]] else e.mem)
            && q.regs.Keys == p.regs.Keys
  {
    NotBothStay(p, tid, number, arg1, arg2);
    FreshIsFree(p, number, arg1, arg2, p.regs[tid].rip);
    FreshIsFree(p, number, arg1, arg2, p.regs[tid].rip + 1);
    hide *;
    AbandonedChange(p, tid, number, arg1, arg2, SyscallChange(p.regions, p.brk, number, arg1, arg2));
  }

  /** The bytes of e, with the planted one where the first of two was taken away. */
  function LeftBytes(e: Proc, pc: int): map<int, Bytes.Byte> {
    if pc !in e.mem && pc + 1 in e.mem then e.mem[pc + 1 := SYSCALL_CODE[1]] else e.mem
  }

  lemma AbandonedChange(p: Proc, tid: int, number: int, arg1: nat, arg2: nat, c: Change)
    requires CodeMapped(p, tid) && c == SyscallChange(p.regions, p.brk, number, arg1, arg2)
    requires var pc := p.regs[tid].rip;
             && !(c.freshLo <= pc < c.freshHi) && !(c.freshLo <= pc + 1 < c.freshHi)
             && pc in p.mem && pc + 1 in p.mem && !(pc in Commit(p, c).mem && pc + 1 in Commit(p, c).mem)
    ensures var pc, e, q := p.regs[tid].rip, Commit(p, c), Abandoned(p, tid, number, arg1, arg2);
            && q == e.(mem := q.mem, dirty := e.dirty + {Page(pc), Page(pc + 1)}, regs := q.regs)
            && q.mem == LeftBytes(e, pc)
            && q.regs.Keys == p.regs.Keys
  {
    var pc := p.regs[tid].rip;
    hide *;
    AbandonedAs(p, tid, number, arg1, arg2);
    PatchHalfGone(p, c, pc);
    var x := PokeMapped(Commit(Poke(p, pc, SYSCALL_CODE), c), pc, [p.mem[pc], p.mem[pc + 1]]);
    OtherRegs(Commit(p, c), x, Abandoned(p, tid, number, arg1, arg2), {Page(pc), Page(pc + 1)});
  }

  lemma OtherRegs(e: Proc, x: Proc, q: Proc, pages: set<int>)
    requires x == e.(mem := x.mem, dirty := e.dirty + pages) && q == x.(regs := q.regs)
    ensures q == e.(mem := q.mem, dirty := e.dirty + pages, regs := q.regs) && q.mem == x.mem
  {
  }

  /** The same in terms of the change. */
  lemma NotBothStay(p: Proc, tid: int, number: int, arg1: nat, arg2: nat)
    requires CodeMapped(p, tid) && !Injectable(p, tid, number, arg1, arg2)
    ensures var pc, e := p.regs[tid].rip, Commit(p, SyscallChange(p.regions, p.brk, number, arg1, arg2));
            && tid in p.regs && e == Effect(p, number, arg1, arg2) && CodePages(p, tid) == {Page(pc), Page(pc + 1)}
            && pc in p.mem && pc + 1 in p.mem && !(pc in e.mem && pc + 1 in e.mem)
            && LeftBytes(e, pc)
            == (if Torn(p, tid, number, arg1, arg2) then e.mem[pc + 1 := SYSCALL_CODE[1]] else e.mem)
  {
    hide SyscallChange, Commit, Page;
  }

  lemma AbandonedAs(p: Proc, tid: int, number: int, arg1: nat, arg2: nat)
    requires CodeMapped(p, tid)
    ensures var pc, c, a := p.regs[tid].rip, SyscallChange(p.regions, p.brk, number, arg1, arg2),
              Abandoned(p, tid, number, arg1, arg2);
            && a == PokeMapped(Commit(Poke(p, pc, SYSCALL_CODE), c), pc, [p.mem[pc], p.mem[pc + 1]]).(regs := a.regs)
            && a.regs.Keys == p.regs.Keys
  {
    var pc := p.regs[tid].rip;
    var q := Commit(Poke(p, pc, SYSCALL_CODE), SyscallChange(p.regions, p.brk, number, arg1, arg2));
    var m := Midway(p, tid, number, arg1, arg2);
    MidwayIs(p, tid, number, arg1, arg2);
    MidwayKeys(p, tid, number, arg1, arg2);
    hide Midway, Commit, SyscallChange, SyscallValue, Poke, PokeMapped, Page;
    SameRegsMapped(q, m, pc, [p.mem[pc], p.mem[pc + 1]]);
  }

  lemma MidwayKeys(p: Proc, tid: int, number: int, arg1: nat, arg2: nat)
    requires CodeMapped(p, tid)
    ensures Midway(p, tid, number, arg1, arg2).regs.Keys == p.regs.Keys
  {
    StepsOver(p, tid, number, arg1, arg2);
    hide Midway;
    var m := Midway(p, tid, number, arg1, arg2);
    assert m.regs[tid := p.regs[tid]].Keys == m.regs.Keys;
  }

  lemma SameRegsMapped(q: Proc, m: Proc, pc: int, two: seq<Bytes.Byte>)
    requires |two| == 2 && m == q.(regs := m.regs)
    ensures PokeMapped(m, pc, two) == PokeMapped(q, pc, two).(regs := m.regs)
  {
  }

  /** Putting back as much as there is of a patch that a change took away. */
  lemma PatchHalfGone(p: Proc, c: Change, pc: int)
    requires pc in p.mem && pc + 1 in p.mem && !(pc in Commit(p, c).mem && pc + 1 in Commit(p, c).mem)
    requires !(c.freshLo <= pc < c.freshHi) && !(c.freshLo <= pc + 1 < c.freshHi)
    ensures var e := Commit(p, c);
            var q := PokeMapped(Commit(Poke(p, pc, SYSCALL_CODE), c), pc, [p.mem[pc], p.mem[pc + 1]]);
            && q == e.(mem := q.mem, dirty := e.dirty + {Page(pc), Page(pc + 1)})
            && q.mem == LeftBytes(e, pc)
  {
    CommitOfPatched(p, c, pc, SYSCALL_CODE);
    assert forall a :: a in Commit(p, c).mem <==> a in Commit(Poke(p, pc, SYSCALL_CODE), c).mem;
    hide *;
    PutBack(Commit(p, c), Commit(Poke(p, pc, SYSCALL_CODE), c), pc, [p.mem[pc], p.mem[pc + 1]]);
  }

  /** m has two bytes of e replaced, of which one at most is there. */
  lemma PutBack(e: Proc, m: Proc, pc: int, two: seq<Bytes.Byte>)
    requires |two| == 2 && m == e.(mem := m.mem, dirty := e.dirty + {Page(pc), Page(pc + 1)})
    requires forall a :: a in e.mem <==> a in m.mem
    requires !(pc in e.mem && pc + 1 in e.mem) && (pc in e.mem ==> e.mem[pc] == two[0])
    requires pc + 1 in e.mem ==> m.mem[pc + 1] == SYSCALL_CODE[1]
    requires forall a :: a in e.mem && a != pc && a != pc + 1 ==> m.mem[a] == e.mem[a]
    ensures var q := PokeMapped(m, pc, two);
            && q == e.(mem := q.mem, dirty := e.dirty + {Page(pc), Page(pc + 1)})
            && q.mem == LeftBytes(e, pc)
  {
    hide Page, Poke;
    var q := PokeMapped(m, pc, two);
    assert forall a :: a in e.mem <==> a in q.mem;
    if pc !in e.mem && pc + 1 in e.mem {
      assert forall a :: a in e.mem && a != pc + 1 ==> q.mem[a] == e.mem[a];
      assert q.mem == e.mem[pc + 1 := SYSCALL_CODE[1]];
    } else {
      assert forall a :: a in e.mem ==> q.mem[a] == e.mem[a];
      assert q.mem == e.mem;
    }
  }

  lemma MidwayReturns(p: Proc, tid: int, number: int, arg1: nat, arg2: nat)
    requires tid in p.regs && p.regs[tid].rip in p.mem && p.regs[tid].rip + 1 in p.mem
    ensures var m := Midway(p, tid, number, arg1, arg2);
            tid in m.regs && m.regs[tid].rax == Returned(p, number, arg1, arg2)
  {
    StepsOver(p, tid, number, arg1, arg2);
    hide *;
  }

  lemma MidwayInSteps(p: Proc, tid: int, number: int, arg1: nat, arg2: nat)
    requires tid in p.regs && p.regs[tid].rip in p.mem && p.regs[tid].rip + 1 in p.mem
    ensures var start := p.regs[tid];
            var planted := PokeMapped(p, start.rip, SYSCALL_CODE);
            && planted.regs == p.regs
            && Midway(p, tid, number, arg1, arg2)
            == SingleStep(planted.(regs := planted.regs[tid := Loaded(start, number, arg1, arg2)]), tid)
  {
    hide SingleStep, Page;
  }

  /** The middle of runSyscall: plant the instruction, load the arguments, step over it. */
  method StepOver(t: Tracee, tid: int, start: Regs, number: int, arg1: nat, arg2: nat) returns (exit: Option<Regs>)
    requires Consistent(t.proc) && tid in t.proc.regs && start == t.proc.regs[tid]
    requires start.rip in t.proc.mem && start.rip + 1 in t.proc.mem
    modifies t
    ensures exit.Some? && exit.value.rax == Returned(old(t.proc), number, arg1, arg2)
    ensures Mendable(old(t.proc), tid, number, arg1, arg2, t.proc)
    ensures t.proc == Midway(old(t.proc), tid, number, arg1, arg2)
  {
    ghost var p, planted := t.proc, PokeMapped(t.proc, start.rip, SYSCALL_CODE);
    assert |SYSCALL_CODE| == 2;
    hide *;
    MidwayInSteps(p, tid, number, arg1, arg2);
    var ok := t.PokeData(start.rip, SYSCALL_CODE);
    if !ok {
      return None;
    }
    ok := t.SetRegs(tid, Loaded(start, number, arg1, arg2));
    if !ok {
      return None;
    }
    assert t.proc == planted.(regs := planted.regs[tid := Loaded(start, number, arg1, arg2)]);
    t.Step(tid);
    assert t.proc == Midway(p, tid, number, arg1, arg2);
    MidwayReturns(p, tid, number, arg1, arg2);
    MidwayMendable(p, tid, number, arg1, arg2);
    exit := t.GetRegs(tid);
  }

  /** runSyscall: every early return of the original is an Err here. A call succeeds exactly
      when the two bytes at the program counter survive it, and then the only difference it
      makes is its own effect and the dirty bits of the code's pages: registers and code are
      back as they were. */
  method RunSyscall(t: Tracee, tid: int, number: int, arg1: nat, arg2: nat) returns (r: Result<int>)
    requires Consistent(t.proc)
    modifies t
    ensures r.Ok? <==> Injectable(old(t.proc), tid, number, arg1, arg2)
    ensures r.Ok? ==> r.value == Returned(old(t.proc), number, arg1, arg2)
    ensures r.Ok? ==> tid in old(t.proc).regs && t.proc == Injected(old(t.proc), tid, number, arg1, arg2)
    ensures r.Err? ==> CallFails(old(t.proc), tid, number, arg1, arg2, t.proc)
  {
    hide Consistent, Effect, Returned, Injected, Midway;
    var start := t.GetRegs(tid);
    if start.None? {
      return Err;
    }
    var pc := start.value.rip;
    var before := t.PeekData(pc);
    if before.None? {
      return Err;
    }
    var exit := StepOver(t, tid, start.value, number, arg1, arg2);
    var ok := t.PokeData(pc, before.value);
    if !ok {
      return Err;
    }
    ok := t.SetRegs(tid, start.value);
    if !ok {
      return Err;
    }
    return Ok(exit.value.rax);
  }
}

/**
 state/state.go, state/memory.go, controller/controller.go: what a checkpoint records and what
 a restore does with it, phase by phase, as a relation between process images.
 */
module Restoration {
  import opened Results
  import opened Kernel
  import opened MemoryPages
  import opened Injection

  datatype Snapshot = Snapshot(memory: seq<Memory>, registers: map<int, Regs>)

  /** The saved bytes of a writable region, and nothing for the others. */
  ghost predicate Captures(p: Proc, m: Memory) {
    if m.region.writable then
      && |m.content| == m.region.end - m.region.start
      && forall k :: 0 <= k < |m.content| ==> HasByte(p.mem, m.region.start + k, m.content[k])
    else m.content == []
  }

  ghost predicate SnapshotOf(p: Proc, s: Snapshot) {
    && |s.memory| == |Visible(p.regions)|
    && (forall i :: 0 <= i < |s.memory| ==> s.memory[i].region == Visible(p.regions)[i] && Captures(p, s.memory[i]))
    && s.registers == p.regs
  }

  // ----- Detecting a change of layout -----

  /** getMemory: the first region of that name. */
  function Named(ms: seq<Memory>, name: Name): (m: Option<Memory>)
    ensures m.Some? ==> m.value in ms && m.value.region.name == name
    ensures m.None? ==> forall n :: n in ms ==> n.region.name != name
  {
    if ms == [] then None
    else if ms[0].region.name == name then Some(ms[0])
    else Named(ms[1..], name)
  }

  /** The loop over the new regions keeps the last heap it meets. */
  function LastNamed(rs: seq<Region>, name: Name): (r: Option<Region>)
    ensures r.Some? ==> r.value in rs && r.value.name == name
    ensures r.None? ==> forall s :: s in rs ==> s.name != name
  {
    if rs == [] then None
    else if rs[|rs| - 1].name == name then Some(rs[|rs| - 1])
    else
      assert rs == rs[..|rs| - 1] + [rs[|rs| - 1]];
      LastNamed(rs[..|rs| - 1], name)
  }

  predicate Existed(ms: seq<Memory>, r: Region) {
    exists m :: m in ms && m.region.name == r.name && m.region.start == r.start
  }

  function NewLocations(ms: seq<Memory>, rs: seq<Region>): (ns: seq<Region>)
    ensures forall r :: r in ns <==> r in rs && !Existed(ms, r)
  {
    if rs == [] then []
    else
      var last := rs[|rs| - 1];
      assert rs == rs[..|rs| - 1] + [last];
      NewLocations(ms, rs[..|rs| - 1]) + (if Existed(ms, last) then [] else [last])
  }

  // ----- The phases of a restore -----

  /** Page n holds one of the two bytes at the program counter of one of the threads tids. */
  predicate IsCodePage(regs: map<int, Regs>, tids: set<int>, n: int) {
    exists tid :: tid in tids && tid in regs && (n == Page(regs[tid].rip) || n == Page(regs[tid].rip + 1))
  }

  /** q is e, but for dirty bits of the code in which calls were planted. */
  ghost predicate SameUpToCode(regs: map<int, Regs>, tids: set<int>, e: Proc, q: Proc) {
    SameUpToDirty(e, q) && forall n :: n in q.dirty ==> n in e.dirty || IsCodePage(regs, tids, n)
  }

  /** Resets the program break when the heap does not end where it did. */
  ghost predicate BreakPhase(s: Snapshot, p: Proc, q: Proc, changed: bool) {
    var before, after := Named(s.memory, HEAP), LastNamed(Visible(p.regions), HEAP);
    && before.Some? && after.Some?
    && changed == (before.value.region.end != after.value.end)
    && (if changed then
          && Returned(p, SYS_BRK, before.value.region.end, 0) == before.value.region.end
          && SameUpToCode(p.regs, s.registers.Keys, Effect(p, SYS_BRK, before.value.region.end, 0), q)
        else q == p)
  }

  /** The effects of the first n unmappings, one after the other. */
  ghost function Unmapped(p: Proc, rs: seq<Region>, n: nat): Proc
    requires n <= |rs|
  {
    if n == 0 then p else Munmap(Unmapped(p, rs, n - 1), rs[n - 1].start, rs[n - 1].end)
  }

  /** Unmaps what was not there at the checkpoint when the number of regions differs. */
  ghost predicate UnmapPhase(s: Snapshot, p: Proc, q: Proc, changed: bool) {
    && changed == (|s.memory| != |Visible(p.regions)|)
    && (if changed then
          var news := NewLocations(s.memory, Visible(p.regions));
          SameUpToCode(p.regs, s.registers.Keys, Unmapped(p, news, |news|), q)
        else q == p)
  }

  /** The code thread tid runs until it enters its next system call. Instructions that
      fault, and anything that would need a system call, are not executed. */
  function Window(p: Proc, tid: int, ops: seq<UserOp>): Proc
    decreases ops
  {
    if ops == [] then p
    else
      var op := ops[0];
      var q :=
        match op
        case Write(a, b) => if exists r :: r in p.regions && r.writable && r.Contains(a) then Apply(p, op) else p
        case SetRegs(t, regs) => if t == tid && tid in p.regs then Apply(p, op) else p
        case _ => p;
      Window(q, tid, ops[1..])
  }

  ghost predicate FixupPhase(s: Snapshot, p: Proc, q: Proc, fixup: bool, ops: seq<UserOp>) {
    if fixup then exists tid :: tid in s.registers && q == Window(p, tid, ops) else q == p
  }

  /** A Restore that returns no error. */
  ghost predicate RestoreStep(s: Snapshot, p: Proc, q: Proc) {
    exists ops :: RestoreWith(s, p, q, ops)
  }

  /** ops: what the code of the user executes if it runs in between. */
  ghost predicate RestoreWith(s: Snapshot, p: Proc, q: Proc, ops: seq<UserOp>) {
    exists p1, p2, p3, p4, b, u :: Phases(s, p, p1, p2, p3, p4, q, b, u, ops)
  }

  ghost predicate FourPhases(s: Snapshot, p: Proc, p1: Proc, p2: Proc, p3: Proc, p4: Proc, b: bool, u: bool,
      ops: seq<UserOp>) {
    && BreakPhase(s, p, p1, b)
    && UnmapPhase(s, p1, p2, u)
    && FixupPhase(s, p2, p3, b || u, ops)
    && PagesRestored(s.memory, p3, p4)
  }

  ghost predicate Phases(s: Snapshot, p: Proc, p1: Proc, p2: Proc, p3: Proc, p4: Proc, q: Proc, b: bool, u: bool,
      ops: seq<UserOp>) {
    FourPhases(s, p, p1, p2, p3, p4, b, u, ops) && q == p4.(regs := p4.regs + s.registers)
  }

  // ----- A Restore that returns an error -----

  // torn: the address of a byte of planted code that the failure leaves, if it leaves one.

  /** The kernel refuses the old break, or the call cannot be injected. */
  ghost predicate BreakFails(s: Snapshot, p: Proc, q: Proc, torn: Option<int>) {
    && Named(s.memory, HEAP).Some?
    && var end := Named(s.memory, HEAP).value.region.end;
       || (torn == None && Returned(p, SYS_BRK, end, 0) != end && SameUpToDirty(Effect(p, SYS_BRK, end, 0), q))
       || exists tid ::
            tid in s.registers && CallFails(p, tid, SYS_BRK, end, 0, q) && torn == TornAt(p, tid, SYS_BRK, end, 0)
  }

  /** After i unmappings, which led to r, the next one cannot be injected. */
  ghost predicate UnmapFailsAt(s: Snapshot, p: Proc, i: nat, r: Proc, tid: int, q: Proc, torn: Option<int>) {
    var news := NewLocations(s.memory, Visible(p.regions));
    && i < |news| && news[i].start <= news[i].end && tid in s.registers
    && SameUpToDirty(Unmapped(p, news, i), r)
    && CallFails(r, tid, SYS_MUNMAP, news[i].start, news[i].end - news[i].start, q)
    && torn == TornAt(r, tid, SYS_MUNMAP, news[i].start, news[i].end - news[i].start)
  }

  ghost predicate UnmapFails(s: Snapshot, p: Proc, q: Proc, torn: Option<int>) {
    exists i, r, tid :: UnmapFailsAt(s, p, i, r, tid, q, torn)
  }

  ghost predicate UnmapFailsAfterBreak(s: Snapshot, p: Proc, q: Proc, torn: Option<int>) {
    exists p1, b :: BreakPhase(s, p, p1, b) && UnmapFails(s, p1, q, torn)
  }

  /** A Restore that returns an error, and where that leaves the process. */
  ghost predicate RestoreFails(s: Snapshot, p: Proc, q: Proc, torn: Option<int>) {
    || (torn == None && q == p && (Named(s.memory, HEAP).None? || LastNamed(Visible(p.regions), HEAP).None?))
    || BreakFails(s, p, q, torn)
    || UnmapFailsAfterBreak(s, p, q, torn)
  }

  ghost predicate RestoreErrs(s: Snapshot, p: Proc, q: Proc) {
    exists torn :: RestoreFails(s, p, q, torn)
  }

  // ----- A Restore that does not return -----

  /** A thread of the checkpoint is gone: some of the others may have their registers already. */
  ghost predicate RegistersStuck(s: Snapshot, p: Proc, q: Proc) {
    !(s.registers.Keys <= p.regs.Keys) && q == p.(regs := q.regs) && q.regs.Keys == p.regs.Keys
  }

  /** The order for a thread that is gone is never taken up, and an error of writing registers is
      sent to a channel that nobody reads before all threads are done. */
  ghost predicate RestoreHangs(s: Snapshot, p: Proc, q: Proc) {
    exists p1, p2, p3, p4, b, u, ops :: FourPhases(s, p, p1, p2, p3, p4, b, u, ops) && RegistersStuck(s, p4, q)
  }
}

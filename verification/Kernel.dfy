/**
 The part of the Linux kernel that checkpoint and restore lean on: the regions of
 /proc/pid/maps in address order, the bytes behind them, one soft-dirty bit a page,
 the program break, and one register file a thread.

 What the kernel promises is written down as total functions on a process image:
 a user write sets the soft-dirty bit of its page, a page that has just been mapped
 is dirty, and writing "4" to clear_refs clears every bit.
 */
module Kernel {
  import Bytes

  // The tracer plants the x86-64 `syscall` instruction, so pages are 4096 bytes.
  const PAGE_SIZE: nat := 4096
  const SYS_MUNMAP: nat := 11
  const SYS_BRK: nat := 12
  const ENOSYS: int := -38

  /** The last field of a line of /proc/pid/maps; HEAP stands for the text [heap], and so on. */
  datatype Name = HEAP | VVAR | VDSO | VSYSCALL | Path(text: string)

  /** One line of /proc/pid/maps. */
  datatype Region = Region(
    name: Name, start: nat, end: nat, offset: nat,
    readable: bool, writable: bool, executable: bool, shared: bool,
    majorDevice: nat, minorDevice: nat, inode: nat)
  {
    predicate Contains(a: int) {
      start <= a < end
    }

    predicate Overlaps(lo: int, hi: int) {
      start < hi && lo < end
    }
  }

  /** The registers an injected system call reads or clobbers, and the remaining ones. */
  datatype Regs = Regs(rax: int, rdi: nat, rsi: nat, rip: nat, rcx: nat, r11: nat, rflags: nat, others: seq<nat>)

  datatype Proc = Proc(regions: seq<Region>, brk: nat, mem: map<int, Bytes.Byte>, dirty: set<int>, regs: map<int, Regs>)

  function Page(a: int): int {
    a / PAGE_SIZE
  }

  predicate Aligned(a: int) {
    a % PAGE_SIZE == 0
  }

  function AlignUp(a: nat): nat {
    (a + PAGE_SIZE - 1) / PAGE_SIZE * PAGE_SIZE
  }

  lemma AlignUpIsAligned(a: nat)
    ensures Aligned(AlignUp(a)) && a <= AlignUp(a)
    ensures Aligned(a) ==> AlignUp(a) == a
  {
  }

  predicate InRange(lo: int, x: int, hi: int) {
    lo <= x < hi
  }

  /** The numbers of the pages between two page-aligned addresses. */
  function Pages(lo: int, hi: int): (s: set<int>)
    ensures forall p :: p in s <==> Page(lo) <= p < Page(hi)
  {
    var s := set p | Page(lo) <= p < Page(hi) && InRange(Page(lo), p, Page(hi));
    assert forall p :: InRange(Page(lo), p, Page(hi)) ==> p in s;
    s
  }

  /** Fresh bytes at [start, start + |content|). */
  function Fresh(start: int, content: seq<Bytes.Byte>): (m: map<int, Bytes.Byte>)
    ensures forall a :: a in m <==> start <= a < start + |content|
    ensures forall a :: a in m ==> m[a] == content[a - start]
  {
    var end := start + |content|;
    var m := map a: int | start <= a < end && InRange(start, a, end) :: content[a - start];
    assert forall a: int :: InRange(start, a, end) ==> a in m;
    m
  }

  /** Regions the maps scan skips: the kernel maps them and a process leaves them alone. */
  predicate KernelOwned(name: Name) {
    name.VVAR? || name.VDSO? || name.VSYSCALL?
  }

  ghost predicate Mapped(rs: seq<Region>, a: int) {
    exists r :: r in rs && r.Contains(a)
  }

  ghost predicate WritableAt(rs: seq<Region>, a: int) {
    exists r :: r in rs && r.writable && r.Contains(a)
  }

  /** Regions are non-empty, page aligned, disjoint and in address order. */
  ghost predicate Ordered(rs: seq<Region>) {
    && (forall r :: r in rs ==> r.start < r.end && Aligned(r.start) && Aligned(r.end))
    && (forall i, j :: 0 <= i < j < |rs| ==> rs[i].end <= rs[j].start)
  }

  /** The index of the first heap, or |rs| when there is none. */
  function HeapIndex(rs: seq<Region>): (i: nat)
    ensures i <= |rs|
    ensures i < |rs| ==> rs[i].name == HEAP
    ensures i == |rs| ==> forall r :: r in rs ==> r.name != HEAP
  {
    if rs == [] then 0
    else if rs[0].name == HEAP then 0
    else 1 + HeapIndex(rs[1..])
  }

  predicate HasHeap(rs: seq<Region>) {
    HeapIndex(rs) < |rs|
  }

  function Heap(rs: seq<Region>): (h: Region)
    requires HasHeap(rs)
    ensures h in rs && h.name == HEAP
  {
    rs[HeapIndex(rs)]
  }

  /** There is at most one heap, it is writable, and it ends at the page above the break;
      what the kernel maps on its own account is not writable. */
  ghost predicate HeapOk(rs: seq<Region>, brk: nat) {
    && (forall r :: r in rs && r.name == HEAP ==> HasHeap(rs) && r == Heap(rs))
    && (HasHeap(rs) ==> Heap(rs).writable && Heap(rs).end == AlignUp(brk))
    && (forall r :: r in rs && KernelOwned(r.name) ==> !r.writable)
  }

  /** An address has a byte exactly when a region covers it. */
  ghost predicate Consistent(p: Proc) {
    && Ordered(p.regions)
    && (forall a :: a in p.mem <==> Mapped(p.regions, a))
  }

  ghost predicate WellFormed(p: Proc) {
    Consistent(p) && HeapOk(p.regions, p.brk)
  }

  /** The lines of /proc/pid/maps that the scan keeps. */
  function Visible(rs: seq<Region>): (v: seq<Region>)
    ensures forall r :: r in v <==> r in rs && !KernelOwned(r.name)
  {
    if rs == [] then []
    else
      var last := rs[|rs| - 1];
      assert rs == rs[..|rs| - 1] + [last];
      Visible(rs[..|rs| - 1]) + (if KernelOwned(last.name) then [] else [last])
  }

  predicate HasByte(mem: map<int, Bytes.Byte>, a: int, b: Bytes.Byte) {
    a in mem && mem[a] == b
  }

  // ----- System calls -----

  /** What unmapping [lo, hi) leaves of one region. */
  function Cut(r: Region, lo: nat, hi: nat): seq<Region> {
    if !r.Overlaps(lo, hi) then [r]
    else
      (if r.start < lo then [r.(end := lo)] else []) +
      (if hi < r.end then [r.(start := hi, offset := r.offset + (hi - r.start))] else [])
  }

  function CutAll(rs: seq<Region>, lo: nat, hi: nat): seq<Region> {
    if rs == [] then [] else Cut(rs[0], lo, hi) + CutAll(rs[1..], lo, hi)
  }

  function Forget(mem: map<int, Bytes.Byte>, lo: int, hi: int): (m: map<int, Bytes.Byte>)
    ensures forall a :: a in m <==> a in mem && !(lo <= a < hi)
    ensures forall a :: a in m ==> m[a] == mem[a]
  {
    map a | a in mem && !(lo <= a < hi) :: mem[a]
  }

  /** What a system call does, worked out from the layout alone: the new layout, the
      addresses that go away, and the addresses that appear (zero and dirty). */
  datatype Change = Change(regions: seq<Region>, brk: nat, goneLo: int, goneHi: int, freshLo: int, freshHi: int)

  function Commit(p: Proc, c: Change): Proc {
    Proc(
      c.regions,
      c.brk,
      Forget(p.mem, c.goneLo, c.goneHi) + Fresh(c.freshLo, Zeros(c.freshHi - c.freshLo)),
      p.dirty + Pages(c.freshLo, c.freshHi),
      p.regs)
  }

  function Zeros(n: int): (z: seq<Bytes.Byte>)
    ensures |z| == (if n < 0 then 0 else n)
  {
    if n < 0 then [] else seq(n, _ => 0)
  }

  function MunmapChange(rs: seq<Region>, brk: nat, lo: nat, hi: nat): Change {
    Change(CutAll(rs, lo, hi), brk, lo, hi, 0, 0)
  }

  function Munmap(p: Proc, lo: nat, hi: nat): Proc {
    Commit(p, MunmapChange(p.regions, p.brk, lo, hi))
  }

  /** A break that would leave no heap page, or that runs into the next region, is refused. */
  predicate BrkAllowed(rs: seq<Region>, x: nat) {
    var h := HeapIndex(rs);
    && h < |rs|
    && rs[h].start < AlignUp(x)
    && (h + 1 < |rs| ==> AlignUp(x) <= rs[h + 1].start)
  }

  /** brk(2) moves the end of the heap. */
  function BrkChange(rs: seq<Region>, brk: nat, x: nat): Change {
    if !BrkAllowed(rs, x) then Change(rs, brk, 0, 0, 0, 0)
    else
      var h := HeapIndex(rs);
      Change(rs[h := rs[h].(end := AlignUp(x))], x, AlignUp(x), rs[h].end, rs[h].end, AlignUp(x))
  }

  function Brk(p: Proc, x: nat): Proc {
    Commit(p, BrkChange(p.regions, p.brk, x))
  }

  /** The system calls the controller injects; any other number is refused. */
  function SyscallChange(rs: seq<Region>, brk: nat, number: int, arg1: nat, arg2: nat): Change {
    if number == SYS_BRK then BrkChange(rs, brk, arg1)
    else if number == SYS_MUNMAP then MunmapChange(rs, brk, arg1, arg1 + arg2)
    else Change(rs, brk, 0, 0, 0, 0)
  }

  function SyscallValue(rs: seq<Region>, brk: nat, number: int, arg1: nat, arg2: nat): int {
    if number == SYS_BRK then (if BrkAllowed(rs, arg1) then arg1 else brk)
    else if number == SYS_MUNMAP then 0
    else ENOSYS
  }

  // ----- What the user's code does while it runs -----

  datatype UserOp =
    | Write(a: int, b: Bytes.Byte)
    | SetRegs(tid: int, regs: Regs)
    | MoveBreak(x: nat)
    | Map(at: nat, region: Region, content: seq<Bytes.Byte>)
    | Unmap(lo: nat, hi: nat)

  /** Instructions that need no system call. */
  predicate UserMode(op: UserOp) {
    op.Write? || op.SetRegs?
  }

  /** r continues a region of the checkpoint: the heap perhaps with another end. */
  predicate Continues(ck: seq<Region>, r: Region) {
    if r.name == HEAP then HasHeap(ck) && r == Heap(ck).(end := r.end) else r in ck
  }

  /** Every region of the checkpoint is still there, and no other region carries a name that
      only the kernel hands out. */
  ghost predicate Survives(ck: seq<Region>, rs: seq<Region>) {
    && (forall c :: c in ck && c.name != HEAP ==> c in rs)
    && (HasHeap(ck) ==> HasHeap(rs))
    && (forall r :: r in rs && (r.name == HEAP || KernelOwned(r.name)) ==> Continues(ck, r))
  }

  /** Which operations stay inside what a restore is meant to undo. */
  ghost predicate Allowed(ck: seq<Region>, p: Proc, op: UserOp) {
    match op
    case Write(a, b) => WritableAt(p.regions, a)
    case SetRegs(tid, regs) => tid in p.regs
    case MoveBreak(x) => true
    case Map(at, r, content) =>
      && at <= |p.regions|
      && r.start < r.end && Aligned(r.start) && Aligned(r.end)
      && |content| == r.end - r.start
      && r.name != HEAP && !KernelOwned(r.name)
      && (0 < at ==> p.regions[at - 1].end <= r.start)
      && (at < |p.regions| ==> r.end <= p.regions[at].start)
    case Unmap(lo, hi) =>
      && lo < hi && Aligned(lo) && Aligned(hi)
      && forall r :: r in p.regions && Continues(ck, r) ==> !r.Overlaps(lo, hi)
  }

  function Apply(p: Proc, op: UserOp): Proc {
    match op
    case Write(a, b) =>
      p.(mem := p.mem[a := b], dirty := p.dirty + {Page(a)})
    case SetRegs(tid, regs) =>
      p.(regs := p.regs[tid := regs])
    case MoveBreak(x) =>
      Brk(p, x)
    case Map(at, r, content) =>
      if at <= |p.regions| && r.start <= r.end && |content| == r.end - r.start then
        p.(regions := p.regions[..at] + [r] + p.regions[at..],
           mem := p.mem + Fresh(r.start, content),
           dirty := p.dirty + Pages(r.start, r.end))
      else p
    case Unmap(lo, hi) =>
      Munmap(p, lo, hi)
  }

  // ----- ptrace -----

  const SYSCALL_CODE: seq<Bytes.Byte> := [0x0f, 0x05]

  function Poke(p: Proc, a: int, two: seq<Bytes.Byte>): Proc
    requires |two| == 2
  {
    p.(mem := p.mem[a := two[0]][a + 1 := two[1]], dirty := p.dirty + {Page(a), Page(a + 1)})
  }

  /** PtracePokeData writes word by word and stops at the first word that is not mapped: of two
      bytes on two pages the first may be written although the second cannot be. */
  function PokeMapped(p: Proc, a: int, two: seq<Bytes.Byte>): Proc
    requires |two| == 2
  {
    if a !in p.mem then p
    else if a + 1 !in p.mem then p.(mem := p.mem[a := two[0]], dirty := p.dirty + {Page(a)})
    else Poke(p, a, two)
  }

  /** Executes the `syscall` instruction a stopped thread is about to run; the instruction
      clobbers rcx and r11. Other instructions are not part of the model. */
  function SingleStep(p: Proc, tid: int): Proc
    requires tid in p.regs
  {
    var r := p.regs[tid];
    if r.rip in p.mem && r.rip + 1 in p.mem && [p.mem[r.rip], p.mem[r.rip + 1]] == SYSCALL_CODE then
      var q := Commit(p, SyscallChange(p.regions, p.brk, r.rax, r.rdi, r.rsi));
      var value := SyscallValue(p.regions, p.brk, r.rax, r.rdi, r.rsi);
      q.(regs := q.regs[tid := r.(rax := value, rip := r.rip + 2, rcx := r.rip + 2, r11 := r.rflags)])
    else p
  }

  // ----- The files under /proc/pid -----

  /** A write of one page through /proc/pid/mem; a page that is not mapped is not written. */
  function WriteAt(p: Proc, a: int, content: seq<Bytes.Byte>): Proc {
    if forall x {:trigger InRange(a, x, a + |content|)} :: a <= x < a + |content| ==> x in p.mem then
      p.(mem := p.mem + Fresh(a, content), dirty := p.dirty + Pages(a, a + |content|))
    else p
  }

  /** Bit 55 of the pagemap entry of a page is its soft-dirty bit; the other 63 bits are
      of no interest to a restore. */
  const BIT_48: nat := 0x1_0000_0000_0000
  const BIT_55: nat := 128 * BIT_48

  function PagemapEntry(p: Proc, page: int, low: nat, high: nat): nat {
    low + (if page in p.dirty then BIT_55 else 0) + 2 * BIT_55 * high
  }

  /** Byte 6 of a little-endian 64-bit entry. */
  function ByteSix(entry: nat): Bytes.Byte {
    entry / BIT_48 % 256
  }

  /** Writing "4" to /proc/pid/clear_refs. */
  function ClearRefs(p: Proc): Proc {
    p.(dirty := {})
  }
}

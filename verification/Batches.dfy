/**
 state/memory.go: one goroutine a region starts eight goroutines, one a batch of pages.
 Each of them alternates two steps: read the pagemap entry of the next page, then write
 the page back when its bit was set. The scheduler may pick any of them at any time.
 */
module Batches {
  import opened Kernel
  import opened MemoryPages

  /** A batch goroutine is named by its region and its batch number. */
  type Goroutine = (int, int)

  datatype Seen = Unread | Read(bit: bool)
  datatype Cursor = Cursor(next: int, seen: Seen)
  datatype Fleet = Fleet(proc: Proc, cursors: imap<Goroutine, Cursor>)

  ghost predicate Live(ms: seq<Memory>, g: Goroutine) {
    0 <= g.0 < |ms| && ms[g.0].region.writable && 0 <= g.1 < PARALLELISM
  }

  ghost function Launch(ms: seq<Memory>, p: Proc): Fleet
    requires AllSaved(ms)
  {
    Fleet(p, imap g: Goroutine | Live(ms, g) :: Cursor(BatchStart(PageCount(ms, g.0), g.1), Unread))
  }

  ghost function PageCount(ms: seq<Memory>, i: int): nat
    requires AllSaved(ms) && 0 <= i < |ms|
  {
    assert Saved(ms[i]);
    ms[i].NumPages()
  }

  /** One step of goroutine g; a goroutine that has finished its batch stays put. */
  ghost function Step(ms: seq<Memory>, f: Fleet, g: Goroutine): Fleet
    requires AllSaved(ms)
  {
    if !Live(ms, g) || g !in f.cursors then f
    else
      var c := f.cursors[g];
      if !(0 <= c.next < BatchEnd(PageCount(ms, g.0), g.1)) then f
      else
        BatchBounds(PageCount(ms, g.0), g.1);
        assert Saved(ms[g.0]);
        OffsetsAgree(ms[g.0], c.next, 0);
        var m := ms[g.0];
        match c.seen
        case Unread => f.(cursors := f.cursors[g := c.(seen := Read(Page(m.PageAt(c.next)) in f.proc.dirty))])
        case Read(bit) =>
          Fleet(if bit then WriteAt(f.proc, m.PageAt(c.next), m.PageContent(c.next)) else f.proc,
                f.cursors[g := Cursor(c.next + 1, Unread)])
  }

  ghost function Schedule(ms: seq<Memory>, f: Fleet, picks: seq<Goroutine>): Fleet
    requires AllSaved(ms)
    decreases picks
  {
    if picks == [] then f else Schedule(ms, Step(ms, f, picks[0]), picks[1..])
  }

  /** The wait groups let RestoreDirtyPages go on only when every batch is through. */
  ghost predicate Done(ms: seq<Memory>, f: Fleet)
    requires AllSaved(ms)
  {
    forall g :: Live(ms, g) ==> g in f.cursors && f.cursors[g].next == BatchEnd(PageCount(ms, g.0), g.1)
  }

  /** The page of region i that holds address a has been dealt with. */
  ghost predicate Past(ms: seq<Memory>, f: Fleet, i: int, a: int)
    requires AllSaved(ms) && Holds(ms, i, a)
  {
    var k := Page(a) - Page(ms[i].region.start);
    var g := (i, BatchOf(PageCount(ms, i), k));
    g in f.cursors && k < f.cursors[g].next
  }

  ghost function ByteNow(ms: seq<Memory>, p: Proc, f: Fleet, i: int, a: int): Bytes.Byte
    requires AllSaved(ms) && Holds(ms, i, a) && a in p.mem
  {
    assert Saved(ms[i]);
    if Past(ms, f, i, a) && Page(a) in p.dirty then ms[i].content[a - ms[i].region.start] else p.mem[a]
  }

  ghost predicate CursorsOk(ms: seq<Memory>, p: Proc, f: Fleet)
    requires AllSaved(ms)
  {
    && (forall g :: g in f.cursors <==> Live(ms, g))
    && (forall g :: g in f.cursors ==>
          var c := f.cursors[g];
          && BatchStart(PageCount(ms, g.0), g.1) <= c.next <= BatchEnd(PageCount(ms, g.0), g.1)
          && (c.seen.Read? ==>
                && c.next < BatchEnd(PageCount(ms, g.0), g.1)
                && (c.seen.bit <==> Page(ms[g.0].PageAt(c.next)) in p.dirty)))
  }

  ghost predicate BytesOk(ms: seq<Memory>, p: Proc, f: Fleet)
    requires AllSaved(ms)
  {
    && f.proc == p.(mem := f.proc.mem)
    && f.proc.mem.Keys == p.mem.Keys
    && (forall i, a :: a in p.mem && Holds(ms, i, a) ==> f.proc.mem[a] == ByteNow(ms, p, f, i, a))
    && (forall a :: a in p.mem && (forall i :: !Holds(ms, i, a)) ==> f.proc.mem[a] == p.mem[a])
  }

  lemma LaunchOk(ms: seq<Memory>, p: Proc)
    requires AllSaved(ms)
    ensures CursorsOk(ms, p, Launch(ms, p)) && BytesOk(ms, p, Launch(ms, p))
  {
    var f := Launch(ms, p);
    forall g | g in f.cursors
      ensures BatchStart(PageCount(ms, g.0), g.1) <= f.cursors[g].next <= BatchEnd(PageCount(ms, g.0), g.1)
    {
      BatchBounds(PageCount(ms, g.0), g.1);
    }
    forall i, a | a in p.mem && Holds(ms, i, a)
      ensures !Past(ms, f, i, a)
    {
      assert Saved(ms[i]);
      var k := PageIndex(ms, i, a);
      BatchesPartition(PageCount(ms, i), BatchOf(PageCount(ms, i), k), k);
    }
  }

  lemma PageIndex(ms: seq<Memory>, i: int, a: int) returns (k: nat)
    requires AllSaved(ms) && Holds(ms, i, a)
    ensures k == Page(a) - Page(ms[i].region.start) && k < PageCount(ms, i)
    ensures BatchOf(PageCount(ms, i), k) < PARALLELISM
  {
    assert Saved(ms[i]);
    k := Page(a) - Page(ms[i].region.start);
    assert ms[i].region.end == Page(ms[i].region.end) * PAGE_SIZE;
  }

  /** The goroutine has read the entry of its next page and is about to act on it. */
  ghost predicate AboutToWrite(ms: seq<Memory>, f: Fleet, g: Goroutine)
    requires AllSaved(ms)
  {
    && Live(ms, g) && g in f.cursors
    && 0 <= f.cursors[g].next < BatchEnd(PageCount(ms, g.0), g.1) <= PageCount(ms, g.0)
    && f.cursors[g].seen.Read?
  }

  lemma WriteStep(ms: seq<Memory>, f: Fleet, g: Goroutine)
    requires AllSaved(ms) && WholePages(f.proc) && AboutToWrite(ms, f, g)
    requires var c := f.cursors[g]; c.seen.bit ==> Page(ms[g.0].PageAt(c.next)) in f.proc.dirty
    ensures var c, m, q := f.cursors[g], ms[g.0], Step(ms, f, g).proc;
            && Step(ms, f, g).cursors == f.cursors[g := Cursor(c.next + 1, Unread)]
            && q == f.proc.(mem := q.mem) && q.mem.Keys == f.proc.mem.Keys
            && (forall a :: a in q.mem && !(c.seen.bit && m.PageAt(c.next) <= a < m.PageAt(c.next + 1)) ==>
                  q.mem[a] == f.proc.mem[a])
            && (forall a :: a in q.mem && c.seen.bit && m.PageAt(c.next) <= a < m.PageAt(c.next + 1) ==>
                  0 <= a - m.region.start < |m.content| && q.mem[a] == m.content[a - m.region.start])
  {
    assert Saved(ms[g.0]);
    OffsetsAgree(ms[g.0], f.cursors[g].next, 0);
    StepWrites(ms, f, g);
    hide Step, WriteAt, WholePages, Saved, Page, BatchStart, BatchEnd;
    if f.cursors[g].seen.bit {
      WritePage(ms[g.0], f.proc, f.cursors[g].next);
    }
  }

  lemma StepWrites(ms: seq<Memory>, f: Fleet, g: Goroutine)
    requires AllSaved(ms) && AboutToWrite(ms, f, g)
    ensures var c, m := f.cursors[g], ms[g.0];
            && 0 <= c.next && (c.next + 1) * PAGE_SIZE <= |m.content|
            && Step(ms, f, g) == Fleet(
                 if c.seen.bit then WriteAt(f.proc, m.PageAt(c.next), m.PageContent(c.next)) else f.proc,
                 f.cursors[g := Cursor(c.next + 1, Unread)])
  {
    assert Saved(ms[g.0]);
    OffsetsAgree(ms[g.0], f.cursors[g].next, 0);
    hide WriteAt, Page, BatchStart, BatchEnd;
  }

  lemma StepOk(ms: seq<Memory>, p: Proc, f: Fleet, g: Goroutine)
    requires AllSaved(ms) && WholePages(p) && CursorsOk(ms, p, f) && BytesOk(ms, p, f)
    ensures CursorsOk(ms, p, Step(ms, f, g)) && BytesOk(ms, p, Step(ms, f, g))
  {
    if Live(ms, g) && f.cursors[g].next < BatchEnd(PageCount(ms, g.0), g.1) {
      BatchBounds(PageCount(ms, g.0), g.1);
      if f.cursors[g].seen.Read? {
        assert WholePages(f.proc);
        WriteStepOk(ms, p, f, g);
      } else {
        ReadStepOk(ms, p, f, g);
      }
    }
  }

  lemma ReadStepOk(ms: seq<Memory>, p: Proc, f: Fleet, g: Goroutine)
    requires AllSaved(ms) && CursorsOk(ms, p, f) && BytesOk(ms, p, f)
    requires Live(ms, g) && f.cursors[g].next < BatchEnd(PageCount(ms, g.0), g.1) && f.cursors[g].seen.Unread?
    ensures CursorsOk(ms, p, Step(ms, f, g)) && BytesOk(ms, p, Step(ms, f, g))
  {
    var h := Step(ms, f, g);
    assert Saved(ms[g.0]);
    forall i, a | a in p.mem && Holds(ms, i, a)
      ensures h.proc.mem[a] == ByteNow(ms, p, h, i, a)
    {
      assert f.proc.mem[a] == ByteNow(ms, p, f, i, a);
      assert Past(ms, h, i, a) <==> Past(ms, f, i, a);
    }
  }

  lemma WriteStepOk(ms: seq<Memory>, p: Proc, f: Fleet, g: Goroutine)
    requires AllSaved(ms) && WholePages(f.proc) && CursorsOk(ms, p, f) && BytesOk(ms, p, f)
    requires AboutToWrite(ms, f, g)
    ensures CursorsOk(ms, p, Step(ms, f, g)) && BytesOk(ms, p, Step(ms, f, g))
  {
    hide Step, CursorsOk, BytesOk, AboutToWrite, WholePages, AllSaved;
    WriteCursorsOk(ms, p, f, g);
    WriteBytesOk(ms, p, f, g);
  }

  lemma WriteCursorsOk(ms: seq<Memory>, p: Proc, f: Fleet, g: Goroutine)
    requires AllSaved(ms) && WholePages(f.proc) && CursorsOk(ms, p, f) && BytesOk(ms, p, f)
    requires AboutToWrite(ms, f, g)
    ensures CursorsOk(ms, p, Step(ms, f, g))
  {
    WriteStep(ms, f, g);
    hide Step, WholePages, AllSaved, Saved, ByteNow, BatchStart, BatchEnd, PageCount, Page;
  }

  lemma WriteBytesOk(ms: seq<Memory>, p: Proc, f: Fleet, g: Goroutine)
    requires AllSaved(ms) && WholePages(f.proc) && CursorsOk(ms, p, f) && BytesOk(ms, p, f)
    requires AboutToWrite(ms, f, g)
    ensures BytesOk(ms, p, Step(ms, f, g))
  {
    hide Step, WriteAt, WholePages;
    var h := Step(ms, f, g);
    WriteStep(ms, f, g);
    forall i, a | a in p.mem && Holds(ms, i, a)
      ensures h.proc.mem[a] == ByteNow(ms, p, h, i, a)
    {
      StepByte(ms, p, f, g, h, i, a);
    }
    hide CursorsOk, ByteNow;
    forall a | a in p.mem && (forall i :: !Holds(ms, i, a))
      ensures h.proc.mem[a] == p.mem[a]
    {
      assert Saved(ms[g.0]);
      OffsetsAgree(ms[g.0], f.cursors[g].next, a);
      assert !Holds(ms, g.0, a);
    }
  }

  lemma StepByte(ms: seq<Memory>, p: Proc, f: Fleet, g: Goroutine, h: Fleet, i: int, a: int)
    requires AllSaved(ms) && CursorsOk(ms, p, f) && BytesOk(ms, p, f) && AboutToWrite(ms, f, g)
    requires a in p.mem && a in h.proc.mem && Holds(ms, i, a)
    requires h.cursors == f.cursors[g := Cursor(f.cursors[g].next + 1, Unread)]
    requires var c, m := f.cursors[g], ms[g.0];
             && (!(c.seen.bit && m.PageAt(c.next) <= a < m.PageAt(c.next + 1)) ==> h.proc.mem[a] == f.proc.mem[a])
             && (c.seen.bit && m.PageAt(c.next) <= a < m.PageAt(c.next + 1) ==>
                   0 <= a - m.region.start < |m.content| && h.proc.mem[a] == m.content[a - m.region.start])
    ensures h.proc.mem[a] == ByteNow(ms, p, h, i, a)
  {
    hide WholePages, BatchOf, BatchStart, BatchEnd;
    var c := f.cursors[g];
    var n := PageCount(ms, g.0);
    BatchesPartition(n, g.1, c.next);
    assert Saved(ms[g.0]);
    OffsetsAgree(ms[g.0], c.next, a);
    var k := PageIndex(ms, i, a);
    assert f.proc.mem[a] == ByteNow(ms, p, f, i, a);
    if i == g.0 && k == c.next {
      assert Past(ms, h, i, a);
    } else {
      assert Past(ms, h, i, a) <==> Past(ms, f, i, a);
    }
  }

  lemma {:induction false} ScheduleOk(ms: seq<Memory>, p: Proc, f: Fleet, picks: seq<Goroutine>)
    requires AllSaved(ms) && WholePages(p) && CursorsOk(ms, p, f) && BytesOk(ms, p, f)
    ensures CursorsOk(ms, p, Schedule(ms, f, picks)) && BytesOk(ms, p, Schedule(ms, f, picks))
    decreases picks
  {
    if picks != [] {
      StepOk(ms, p, f, picks[0]);
      ScheduleOk(ms, p, Step(ms, f, picks[0]), picks[1..]);
    }
  }

  lemma DonePast(ms: seq<Memory>, p: Proc, f: Fleet, i: int, a: int)
    requires AllSaved(ms) && CursorsOk(ms, p, f) && Done(ms, f)
    requires Holds(ms, i, a)
    ensures Past(ms, f, i, a)
  {
    var k := PageIndex(ms, i, a);
    BatchesPartition(PageCount(ms, i), BatchOf(PageCount(ms, i), k), k);
    assert Live(ms, (i, BatchOf(PageCount(ms, i), k)));
  }

  lemma DoneRestores(ms: seq<Memory>, p: Proc, f: Fleet)
    requires AllSaved(ms) && CursorsOk(ms, p, f) && BytesOk(ms, p, f) && Done(ms, f)
    ensures PagesRestored(ms, p, f.proc)
  {
    forall i, a | a in p.mem && Holds(ms, i, a)
      ensures 0 <= a - ms[i].region.start < |ms[i].content|
      ensures f.proc.mem[a] == if Page(a) in p.dirty then ms[i].content[a - ms[i].region.start] else p.mem[a]
    {
      DonePast(ms, p, f, i, a);
      assert Saved(ms[i]);
      assert f.proc.mem[a] == ByteNow(ms, p, f, i, a);
    }
  }

  /** Every interleaving that runs all the batches to their end leaves the same memory:
      the dirty pages restored, everything else untouched. */
  lemma AnyInterleaving(ms: seq<Memory>, p: Proc, picks: seq<Goroutine>)
    requires AllSaved(ms) && WellFormed(p)
    requires Done(ms, Schedule(ms, Launch(ms, p), picks))
    ensures PagesRestored(ms, p, Schedule(ms, Launch(ms, p), picks).proc)
  {
    ConsistentWholePages(p);
    LaunchOk(ms, p);
    ScheduleOk(ms, p, Launch(ms, p), picks);
    DoneRestores(ms, p, Schedule(ms, Launch(ms, p), picks));
  }

  // ----- A schedule that finishes -----

  /** How many steps goroutine g has left. */
  ghost function Left(ms: seq<Memory>, f: Fleet, g: Goroutine): int
    requires AllSaved(ms) && Live(ms, g) && g in f.cursors
  {
    2 * (BatchEnd(PageCount(ms, g.0), g.1) - f.cursors[g].next) - (if f.cursors[g].seen.Read? then 1 else 0)
  }

  /** Goroutine g has written back its batch. */
  ghost predicate Through(ms: seq<Memory>, f: Fleet, g: Goroutine)
    requires AllSaved(ms) && Live(ms, g)
  {
    g in f.cursors && f.cursors[g].next == BatchEnd(PageCount(ms, g.0), g.1)
  }

  lemma StepProgress(ms: seq<Memory>, p: Proc, f: Fleet, g: Goroutine)
    requires AllSaved(ms) && CursorsOk(ms, p, f) && Live(ms, g) && !Through(ms, f, g)
    ensures var e := Step(ms, f, g);
            && e.cursors.Keys == f.cursors.Keys && Left(ms, e, g) == Left(ms, f, g) - 1 >= 0
            && forall h :: h != g && h in f.cursors ==> e.cursors[h] == f.cursors[h]
  {
  }

  lemma {:induction false} RunToEnd(ms: seq<Memory>, p: Proc, f: Fleet, g: Goroutine) returns (picks: seq<Goroutine>)
    requires AllSaved(ms) && WholePages(p) && CursorsOk(ms, p, f) && BytesOk(ms, p, f) && Live(ms, g)
    ensures var e := Schedule(ms, f, picks);
            && CursorsOk(ms, p, e) && BytesOk(ms, p, e) && Through(ms, e, g)
            && e.cursors.Keys == f.cursors.Keys && forall h :: h != g && h in f.cursors ==> e.cursors[h] == f.cursors[h]
    decreases Left(ms, f, g)
  {
    hide WholePages, BytesOk;
    if Through(ms, f, g) {
      picks := [];
    } else {
      StepOk(ms, p, f, g);
      StepProgress(ms, p, f, g);
      hide Step, CursorsOk;
      var rest := RunToEnd(ms, p, Step(ms, f, g), g);
      picks := [g] + rest;
      assert picks[0] == g && picks[1..] == rest;
    }
  }

  lemma {:induction false} ScheduleInTwo(ms: seq<Memory>, f: Fleet, a: seq<Goroutine>, b: seq<Goroutine>)
    requires AllSaved(ms)
    ensures Schedule(ms, f, a + b) == Schedule(ms, Schedule(ms, f, a), b)
    decreases a
  {
    hide Step;
    if a == [] {
      assert a + b == b;
    } else {
      assert (a + b)[0] == a[0] && (a + b)[1..] == a[1..] + b;
      ScheduleInTwo(ms, Step(ms, f, a[0]), a[1..], b);
    }
  }

  /** The goroutines in the order in which they are started. */
  function Nth(k: int): Goroutine {
    (k / PARALLELISM, k % PARALLELISM)
  }

  lemma NthIs(g: Goroutine, k: int)
    requires 0 <= g.1 < PARALLELISM
    ensures Nth(k) == g <==> k == g.0 * PARALLELISM + g.1
  {
  }

  /** The first n goroutines run one after the other. */
  lemma {:induction false} RunAll(ms: seq<Memory>, p: Proc, f: Fleet, n: nat) returns (picks: seq<Goroutine>)
    requires AllSaved(ms) && WholePages(p) && CursorsOk(ms, p, f) && BytesOk(ms, p, f)
    ensures var e := Schedule(ms, f, picks);
            && CursorsOk(ms, p, e) && BytesOk(ms, p, e)
            && forall k :: 0 <= k < n && Live(ms, Nth(k)) ==> Through(ms, e, Nth(k))
  {
    hide WholePages, BytesOk, CursorsOk, Live;
    if n == 0 {
      picks := [];
    } else {
      var before := RunAll(ms, p, f, n - 1);
      var e := Schedule(ms, f, before);
      if Live(ms, Nth(n - 1)) {
        var last := RunToEnd(ms, p, e, Nth(n - 1));
        picks := before + last;
        ScheduleInTwo(ms, f, before, last);
        forall k | 0 <= k < n && Live(ms, Nth(k))
          ensures Through(ms, Schedule(ms, f, picks), Nth(k))
        {
          NthIs(Nth(k), n - 1);
        }
      } else {
        picks := before;
      }
    }
  }

  /** So there is something for AnyInterleaving to speak of; indeed the goroutines can still get
      through whatever the scheduler has done so far. */
  lemma SomeScheduleFinishes(ms: seq<Memory>, p: Proc, picks: seq<Goroutine>)
    requires AllSaved(ms) && WellFormed(p)
    ensures exists more :: Done(ms, Schedule(ms, Launch(ms, p), picks + more))
  {
    ConsistentWholePages(p);
    LaunchOk(ms, p);
    ScheduleOk(ms, p, Launch(ms, p), picks);
    hide Launch, WholePages, BytesOk, CursorsOk;
    var f := Schedule(ms, Launch(ms, p), picks);
    var more := RunAll(ms, p, f, |ms| * PARALLELISM);
    ScheduleInTwo(ms, Launch(ms, p), picks, more);
    var e := Schedule(ms, f, more);
    forall g | Live(ms, g)
      ensures Through(ms, e, g)
    {
      NthIs(g, g.0 * PARALLELISM + g.1);
    }
    assert Done(ms, e);
    assert e == Schedule(ms, Launch(ms, p), picks + more);
  }
}

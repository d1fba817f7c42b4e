/** state/memory.go: which page a batch index stands for, and what writing pages back does. */
module MemoryPages {
  import opened Kernel

  const PARALLELISM: nat := 8
  const ENTRY_SIZE: nat := 8

  /** A region of the checkpoint together with the bytes saved from it. */
  datatype Memory = Memory(region: Region, content: seq<Bytes.Byte>)
  {
    function NumPages(): int {
      region.end / PAGE_SIZE - region.start / PAGE_SIZE
    }

    /** Page k of the region starts at this address. */
    function PageAt(k: int): int {
      region.start + k * PAGE_SIZE
    }

    /** The saved bytes of page k. */
    function PageContent(k: int): seq<Bytes.Byte>
      requires 0 <= k && (k + 1) * PAGE_SIZE <= |content|
    {
      content[k * PAGE_SIZE..(k + 1) * PAGE_SIZE]
    }
  }

  ghost predicate Saved(m: Memory) {
    && m.region.start < m.region.end && Aligned(m.region.start) && Aligned(m.region.end)
    && (m.region.writable ==> |m.content| == m.region.end - m.region.start)
  }

  // ----- The eight batches -----

  function BatchStart(numPages: nat, i: nat): nat {
    i * (numPages / PARALLELISM)
  }

  function BatchEnd(numPages: nat, i: nat): nat {
    BatchStart(numPages, i) + numPages / PARALLELISM
    + (if i == PARALLELISM - 1 then numPages % PARALLELISM else 0)
  }

  function BatchOf(numPages: nat, k: nat): nat {
    var size := numPages / PARALLELISM;
    if size == 0 || k / size >= PARALLELISM then PARALLELISM - 1 else k / size
  }

  lemma MulMonotone(i: nat, j: nat, size: nat)
    requires i <= j
    ensures i * size <= j * size
  {
  }

  lemma BatchBounds(n: nat, i: nat)
    requires i < PARALLELISM
    ensures BatchStart(n, i) <= BatchEnd(n, i) <= n
    ensures i + 1 < PARALLELISM ==> BatchEnd(n, i) == BatchStart(n, i + 1)
    ensures BatchStart(n, 0) == 0 && BatchEnd(n, PARALLELISM - 1) == n
  {
    var size := n / 8;
    assert (i + 1) * size == i * size + size;
    MulMonotone(i + 1, 8, size);
  }

  lemma BatchOfHolds(size: nat, k: nat)
    requires size > 0
    ensures k / size * size <= k < k / size * size + size
  {
    assert k == k / size * size + k % size;
  }

  /** The batches partition the pages of a region, however few it has: page k falls into
      one batch, BatchOf(n, k), and into no other. */
  lemma BatchesPartition(n: nat, i: nat, k: nat)
    requires i < PARALLELISM && k < n
    ensures BatchStart(n, i) <= k < BatchEnd(n, i) <==> i == BatchOf(n, k)
  {
    var size := n / 8;
    if size > 0 {
      var q := k / size;
      BatchOfHolds(size, k);
      if q < i {
        MulMonotone(q + 1, i, size);
        assert (q + 1) * size == q * size + size;
      } else if q > i {
        MulMonotone(i + 1, q, size);
        assert (i + 1) * size == i * size + size;
      }
    }
  }

  /** Entry, file offset and buffer offset of page k all speak of the same page, in bounds. */
  lemma OffsetsAgree(m: Memory, k: nat, a: int)
    requires Saved(m) && m.region.writable && k < m.NumPages()
    ensures m.NumPages() * PAGE_SIZE == |m.content|
    ensures (k + 1) * PAGE_SIZE <= |m.content|
    ensures (m.region.start / PAGE_SIZE * ENTRY_SIZE + k * ENTRY_SIZE) / ENTRY_SIZE == Page(m.PageAt(k))
    ensures m.PageAt(k) <= a < m.PageAt(k) + PAGE_SIZE
            <==> m.region.Contains(a) && Page(a) == Page(m.region.start) + k
  {
    assert m.region.start == m.region.start / PAGE_SIZE * PAGE_SIZE;
  }

  lemma SoftDirtyBit(p: Proc, page: int, low: nat, high: nat)
    requires low < BIT_55
    ensures ByteSix(PagemapEntry(p, page, low, high)) / 128 == (if page in p.dirty then 1 else 0)
  {
    var d := if page in p.dirty then 1 else 0;
    var e := PagemapEntry(p, page, low, high);
    var l := low / BIT_48;
    assert e == low % BIT_48 + BIT_48 * (l + 128 * d + 256 * high);
    assert e / BIT_48 == l + 128 * d + 256 * high;
    assert (e / BIT_48) % 256 == l + 128 * d;
  }

  // ----- Writing pages back -----

  /** A page is mapped as a whole or not at all. */
  ghost predicate WholePages(p: Proc) {
    forall a, x :: a in p.mem && Page(a) == Page(x) ==> x in p.mem
  }

  lemma ConsistentWholePages(p: Proc)
    requires Consistent(p)
    ensures WholePages(p)
  {
    forall a, x | a in p.mem && Page(a) == Page(x)
      ensures x in p.mem
    {
      var r :| r in p.regions && r.Contains(a);
      assert r.start == Page(r.start) * PAGE_SIZE && r.end == Page(r.end) * PAGE_SIZE;
      assert r.Contains(x);
    }
  }

  lemma OnePage(m: Memory, k: nat)
    requires Saved(m) && k < m.NumPages()
    ensures m.PageAt(k + 1) == m.PageAt(k) + PAGE_SIZE && Aligned(m.PageAt(k))
    ensures Pages(m.PageAt(k), m.PageAt(k + 1)) == {Page(m.PageAt(k))}
  {
    assert m.region.start == Page(m.region.start) * PAGE_SIZE;
  }

  /** All of one page is mapped or none of it. */
  lemma WholePageMapped(p: Proc, lo: int, hi: int)
    requires WholePages(p) && Aligned(lo) && hi == lo + PAGE_SIZE
    ensures forall x :: lo <= x < hi ==> (x in p.mem <==> lo in p.mem)
  {
    forall x | lo <= x < hi
      ensures Page(x) == Page(lo)
    {
      assert lo == Page(lo) * PAGE_SIZE;
    }
  }

  /** A write to mapped pages that are dirty already changes bytes only. */
  lemma WriteInPlace(p: Proc, lo: int, content: seq<Bytes.Byte>)
    requires forall x :: lo <= x < lo + |content| ==> x in p.mem
    requires Pages(lo, lo + |content|) <= p.dirty
    ensures var q := WriteAt(p, lo, content);
            && q == p.(mem := q.mem) && q.mem.Keys == p.mem.Keys
            && forall a :: a in p.mem ==> q.mem[a] == if lo <= a < lo + |content| then content[a - lo] else p.mem[a]
  {
    hide Pages;
    var q := p.mem + Fresh(lo, content);
    assert WriteAt(p, lo, content) == p.(mem := q, dirty := p.dirty + Pages(lo, lo + |content|));
    assert p.dirty + Pages(lo, lo + |content|) == p.dirty;
    assert q.Keys == p.mem.Keys;
  }

  /** Writing page k changes the bytes of that page only, and no dirty bit. */
  lemma WritePage(m: Memory, p: Proc, k: nat)
    requires Saved(m) && m.region.writable && k < m.NumPages()
    requires WholePages(p) && Page(m.PageAt(k)) in p.dirty
    requires (k + 1) * PAGE_SIZE <= |m.content|
    ensures var q := WriteAt(p, m.PageAt(k), m.PageContent(k));
            && q == p.(mem := q.mem) && q.mem.Keys == p.mem.Keys
            && (forall a :: a in p.mem && !(m.PageAt(k) <= a < m.PageAt(k + 1)) ==> q.mem[a] == p.mem[a])
            && (forall a :: a in p.mem && m.PageAt(k) <= a < m.PageAt(k + 1) ==>
                  0 <= a - m.region.start < |m.content| && q.mem[a] == m.content[a - m.region.start])
  {
    var lo, hi := m.PageAt(k), m.PageAt(k + 1);
    var content := m.PageContent(k);
    OnePage(m, k);
    WholePageMapped(p, lo, hi);
    hide WholePages, Saved, Aligned, Page, Pages, Fresh;
    if lo in p.mem {
      WriteInPlace(p, lo, content);
    } else {
      assert InRange(lo, lo, hi);
    }
  }

  /** Restores the dirty pages lo..hi of one region. */
  ghost function BatchWritten(p: Proc, m: Memory, lo: nat, hi: nat): Proc
    requires Saved(m) && m.region.writable && lo <= hi <= m.NumPages()
  {
    p.(mem := map a | a in p.mem ::
        if m.PageAt(lo) <= a < m.PageAt(hi) && Page(a) in p.dirty then m.content[a - m.region.start] else p.mem[a])
  }

  ghost predicate Holds(ms: seq<Memory>, i: int, a: int) {
    0 <= i < |ms| && ms[i].region.writable && ms[i].region.Contains(a)
  }

  /** Every dirty page of a writable region has its saved bytes back; nothing else changed. */
  ghost predicate PagesRestored(ms: seq<Memory>, p: Proc, q: Proc) {
    && q == p.(mem := q.mem)
    && q.mem.Keys == p.mem.Keys
    && (forall i, a :: a in p.mem && Holds(ms, i, a) && Page(a) in p.dirty ==>
          0 <= a - ms[i].region.start < |ms[i].content| && q.mem[a] == ms[i].content[a - ms[i].region.start])
    && (forall a :: a in p.mem && ((forall i :: !Holds(ms, i, a)) || Page(a) !in p.dirty) ==> q.mem[a] == p.mem[a])
  }

  lemma PagesRestoredUnique(ms: seq<Memory>, p: Proc, q: Proc, r: Proc)
    requires PagesRestored(ms, p, q) && PagesRestored(ms, p, r)
    ensures q == r
  {
    forall a | a in p.mem
      ensures q.mem[a] == r.mem[a]
    {
      if i :| Holds(ms, i, a) {
        assert Page(a) in p.dirty || Page(a) !in p.dirty;
      }
    }
    assert q.mem == r.mem;
  }

  ghost predicate AllSaved(ms: seq<Memory>) {
    && (forall m :: m in ms ==> Saved(m))
    && (forall i, j :: 0 <= i < j < |ms| ==> ms[i].region.end <= ms[j].region.start)
  }

  // ----- One goroutine after the other -----

  lemma BatchNone(p: Proc, m: Memory, lo: nat)
    requires Saved(m) && m.region.writable && lo <= m.NumPages()
    ensures BatchWritten(p, m, lo, lo) == p
  {
    assert BatchWritten(p, m, lo, lo).mem == p.mem;
  }

  lemma BatchKeeps(p: Proc, m: Memory, lo: nat, hi: nat)
    requires Saved(m) && m.region.writable && lo <= hi <= m.NumPages()
    ensures var q := BatchWritten(p, m, lo, hi); q.mem.Keys == p.mem.Keys && q.dirty == p.dirty
    ensures WholePages(p) ==> WholePages(BatchWritten(p, m, lo, hi))
  {
  }

  /** Batches of neighbouring pages add up. */
  lemma BatchesAdd(p: Proc, m: Memory, lo: nat, mid: nat, hi: nat)
    requires Saved(m) && m.region.writable && lo <= mid <= hi <= m.NumPages()
    ensures BatchWritten(BatchWritten(p, m, lo, mid), m, mid, hi) == BatchWritten(p, m, lo, hi)
  {
    var q := BatchWritten(BatchWritten(p, m, lo, mid), m, mid, hi);
    assert q.mem == BatchWritten(p, m, lo, hi).mem;
  }

  lemma PageAddresses(m: Memory, k: nat)
    requires Saved(m) && m.region.writable && k < m.NumPages()
    ensures forall a :: m.PageAt(k) <= a < m.PageAt(k + 1) ==> Page(a) == Page(m.PageAt(k))
  {
    forall a | m.PageAt(k) <= a < m.PageAt(k + 1)
      ensures Page(a) == Page(m.PageAt(k))
    {
      OffsetsAgree(m, k, a);
      OffsetsAgree(m, k, m.PageAt(k));
    }
  }

  /** What one turn of the loop of a batch does to page k. */
  lemma BatchOne(p: Proc, m: Memory, k: nat)
    requires Saved(m) && m.region.writable && k < m.NumPages() && WholePages(p)
    requires (k + 1) * PAGE_SIZE <= |m.content|
    ensures BatchWritten(p, m, k, k + 1)
         == if Page(m.PageAt(k)) in p.dirty then WriteAt(p, m.PageAt(k), m.PageContent(k)) else p
  {
    var q := BatchWritten(p, m, k, k + 1);
    PageAddresses(m, k);
    hide Page, WholePages, Saved, Aligned, WriteAt;
    if Page(m.PageAt(k)) in p.dirty {
      WritePage(m, p, k);
      assert q.mem == WriteAt(p, m.PageAt(k), m.PageContent(k)).mem;
    } else {
      assert q.mem == p.mem;
    }
  }

  /** One more region done. */
  lemma RestoredNext(xs: seq<Memory>, m: Memory, ys: seq<Memory>, p: Proc, q: Proc, r: Proc)
    requires ys == xs + [m] && AllSaved(ys) && PagesRestored(xs, p, q)
    requires 0 <= m.NumPages()
    requires Saved(m) && r == if m.region.writable then BatchWritten(q, m, 0, m.NumPages()) else q
    ensures PagesRestored(ys, p, r)
  {
    forall i, a | a in p.mem && Holds(ys, i, a) && Page(a) in p.dirty
      ensures 0 <= a - ys[i].region.start < |ys[i].content| && r.mem[a] == ys[i].content[a - ys[i].region.start]
    {
      WholeRegion(m, a);
      if i < |xs| {
        assert Holds(xs, i, a);
        assert ys[i].region.end <= ys[|xs|].region.start;
      }
    }
    forall a | a in p.mem && (Page(a) !in p.dirty || forall i :: !Holds(ys, i, a))
      ensures r.mem[a] == p.mem[a]
    {
      WholeRegion(m, a);
      if Page(a) in p.dirty {
        assert !Holds(ys, |xs|, a);
        forall i ensures !Holds(xs, i, a) {
          assert !Holds(ys, i, a);
        }
      }
    }
  }

  lemma WholeRegion(m: Memory, a: int)
    requires Saved(m)
    ensures m.PageAt(0) <= a < m.PageAt(m.NumPages()) <==> m.region.Contains(a)
  {
    assert m.region.start == Page(m.region.start) * PAGE_SIZE && m.region.end == Page(m.region.end) * PAGE_SIZE;
  }
}

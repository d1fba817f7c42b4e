/**
 How system calls and user code change a layout: the kernel keeps its regions
 disjoint and in order, and everything the user does leaves a page that differs
 from the checkpoint marked dirty.
 */
module Layout {
  import opened Kernel

  // ----- Ordered region lists -----

  lemma OrderedDistinct(rs: seq<Region>, r: Region, s: Region)
    requires Ordered(rs) && r in rs && s in rs
    ensures r == s || r.end <= s.start || s.end <= r.start
  {
    var i :| 0 <= i < |rs| && rs[i] == r;
    var j :| 0 <= j < |rs| && rs[j] == s;
  }

  lemma OrderedTail(rs: seq<Region>)
    requires Ordered(rs) && rs != []
    ensures Ordered(rs[1..])
    ensures forall s :: s in rs[1..] ==> rs[0].end <= s.start
    ensures rs == [rs[0]] + rs[1..]
  {
  }

  /** Two ordered lists on the two sides of an address. */
  lemma OrderedJoin(xs: seq<Region>, ys: seq<Region>, middle: int)
    requires Ordered(xs) && Ordered(ys)
    requires forall x :: x in xs ==> x.end <= middle
    requires forall y :: y in ys ==> middle <= y.start
    ensures Ordered(xs + ys)
  {
    var zs := xs + ys;
    forall i, j | 0 <= i < j < |zs|
      ensures zs[i].end <= zs[j].start
    {
      if i < |xs| <= j {
        assert zs[i] in xs && zs[j] in ys;
      }
    }
  }

  lemma FirstIn(rs: seq<Region>)
    ensures rs != [] ==> rs[0] in rs
  {
  }

  lemma OrderedAround(rs: seq<Region>, i: nat)
    requires Ordered(rs) && i < |rs|
    ensures Ordered(rs[..i]) && Ordered(rs[i + 1..])
    ensures forall r :: r in rs[..i] ==> r.end <= rs[i].start
    ensures forall r :: r in rs[i + 1..] ==> rs[i].end <= r.start
  {
    assert forall r :: r in rs[..i] || r in rs[i + 1..] ==> r in rs;
  }

  /** Two ordered lists with the same regions are the same list. */
  lemma {:induction false} OrderedUnique(xs: seq<Region>, ys: seq<Region>)
    requires Ordered(xs) && Ordered(ys)
    requires forall r :: r in xs <==> r in ys
    ensures xs == ys
  {
    FirstIn(xs);
    FirstIn(ys);
    if xs != [] && ys != [] {
      OrderedTail(xs);
      OrderedTail(ys);
      assert xs[0] in ys && ys[0] in xs;
      assert xs[0] == ys[0];
      forall r
        ensures r in xs[1..] <==> r in ys[1..]
      {
        assert r in xs[1..] ==> r in ys && r != ys[0];
        assert r in ys[1..] ==> r in xs && r != xs[0];
      }
      OrderedUnique(xs[1..], ys[1..]);
    }
  }

  lemma CommitNothing(p: Proc)
    ensures Commit(p, Change(p.regions, p.brk, 0, 0, 0, 0)) == p
  {
    assert Forget(p.mem, 0, 0) + Fresh(0, Zeros(0)) == p.mem;
    assert p.dirty + Pages(0, 0) == p.dirty;
  }

  lemma MunmapIs(p: Proc, lo: nat, hi: nat)
    ensures Munmap(p, lo, hi) == p.(regions := CutAll(p.regions, lo, hi), mem := Forget(p.mem, lo, hi))
  {
    assert Forget(p.mem, lo, hi) + Fresh(0, Zeros(0)) == Forget(p.mem, lo, hi);
    assert p.dirty + Pages(0, 0) == p.dirty;
  }

  // ----- munmap -----

  /** c is what an unmapping of [lo, hi) left of r. */
  predicate PieceOf(c: Region, r: Region, lo: nat, hi: nat) {
    && c.name == r.name && c.writable == r.writable
    && r.start <= c.start < c.end <= r.end
    && Aligned(c.start) && Aligned(c.end)
    && !c.Overlaps(lo, hi)
    && (r.Overlaps(lo, hi) || c == r)
  }

  lemma {:induction false} CutPieces(rs: seq<Region>, lo: nat, hi: nat)
    requires Ordered(rs) && Aligned(lo) && Aligned(hi) && lo < hi
    ensures forall c :: c in CutAll(rs, lo, hi) ==> exists r :: r in rs && PieceOf(c, r, lo, hi)
  {
    if rs != [] {
      OrderedTail(rs);
      CutPieces(rs[1..], lo, hi);
      forall c | c in CutAll(rs, lo, hi)
        ensures exists r :: r in rs && PieceOf(c, r, lo, hi)
      {
        if c in Cut(rs[0], lo, hi) {
          assert rs[0] in rs && PieceOf(c, rs[0], lo, hi);
        } else {
          assert c in CutAll(rs[1..], lo, hi);
          var r :| r in rs[1..] && PieceOf(c, r, lo, hi);
          assert r in rs;
        }
      }
    }
  }

  lemma {:induction false} CutOrdered(rs: seq<Region>, lo: nat, hi: nat)
    requires Ordered(rs) && Aligned(lo) && Aligned(hi) && lo < hi
    ensures Ordered(CutAll(rs, lo, hi))
  {
    if rs != [] {
      OrderedTail(rs);
      CutOrdered(rs[1..], lo, hi);
      CutPieces(rs[1..], lo, hi);
      var xs, ys := Cut(rs[0], lo, hi), CutAll(rs[1..], lo, hi);
      assert forall x :: x in xs ==> PieceOf(x, rs[0], lo, hi);
      forall y | y in ys
        ensures rs[0].end <= y.start
      {
        var r :| r in rs[1..] && PieceOf(y, r, lo, hi);
        assert rs[0].end <= r.start;
      }
      OrderedJoin(xs, ys, rs[0].end);
    }
  }

  lemma MappedJoin(xs: seq<Region>, ys: seq<Region>, a: int)
    ensures Mapped(xs + ys, a) <==> Mapped(xs, a) || Mapped(ys, a)
  {
    if Mapped(xs, a) { var x :| x in xs && x.Contains(a); assert x in xs + ys; }
    if Mapped(ys, a) { var y :| y in ys && y.Contains(a); assert y in xs + ys; }
  }

  /** Unmapping a range takes away exactly its addresses. */
  lemma {:induction false} CutMapped(rs: seq<Region>, lo: nat, hi: nat, a: int)
    requires lo < hi
    ensures Mapped(CutAll(rs, lo, hi), a) <==> Mapped(rs, a) && !(lo <= a < hi)
  {
    if rs != [] {
      CutMapped(rs[1..], lo, hi, a);
      CutOne(rs[0], lo, hi, a);
      MappedJoin(Cut(rs[0], lo, hi), CutAll(rs[1..], lo, hi), a);
      MappedJoin([rs[0]], rs[1..], a);
      assert rs == [rs[0]] + rs[1..];
      assert Mapped([rs[0]], a) <==> rs[0].Contains(a) by { assert rs[0] in [rs[0]]; }
    }
  }

  lemma {:induction false} CutKeeps(rs: seq<Region>, lo: nat, hi: nat, r: Region)
    requires r in rs && !r.Overlaps(lo, hi)
    ensures r in CutAll(rs, lo, hi)
  {
    if rs[0] == r {
      assert r in Cut(rs[0], lo, hi);
    } else {
      CutKeeps(rs[1..], lo, hi, r);
    }
  }

  lemma CutOne(r: Region, lo: nat, hi: nat, a: int)
    requires lo < hi
    ensures Mapped(Cut(r, lo, hi), a) <==> r.Contains(a) && !(lo <= a < hi)
  {
    var cs := Cut(r, lo, hi);
    if r.Contains(a) && !(lo <= a < hi) {
      if !r.Overlaps(lo, hi) {
        assert cs[0].Contains(a);
      } else if a < lo {
        assert cs[0].Contains(a);
      } else {
        assert cs[|cs| - 1].Contains(a);
      }
    }
  }

  /** Unmapping one whole region removes that region and no other. */
  lemma {:induction false} CutWhole(rs: seq<Region>, r: Region)
    requires Ordered(rs) && r in rs
    ensures forall s :: s in CutAll(rs, r.start, r.end) <==> s in rs && s != r
    decreases rs
  {
    OrderedTail(rs);
    var xs, ys := Cut(rs[0], r.start, r.end), CutAll(rs[1..], r.start, r.end);
    assert CutAll(rs, r.start, r.end) == xs + ys;
    if rs[0] == r {
      assert xs == [];
      CutMisses(rs[1..], r.start, r.end);
    } else {
      OrderedDistinct(rs, rs[0], r);
      assert xs == [rs[0]];
      CutWhole(rs[1..], r);
    }
  }

  lemma {:induction false} CutMisses(rs: seq<Region>, lo: nat, hi: nat)
    requires forall s :: s in rs ==> !s.Overlaps(lo, hi)
    ensures CutAll(rs, lo, hi) == rs
  {
    if rs != [] {
      CutMisses(rs[1..], lo, hi);
    }
  }

  lemma HeapIs(rs: seq<Region>, h: Region)
    requires h in rs && h.name == HEAP
    requires forall r :: r in rs && r.name == HEAP ==> r == h
    ensures HasHeap(rs) && Heap(rs) == h
  {
  }

  lemma MunmapHeap(rs: seq<Region>, brk: nat, lo: nat, hi: nat)
    requires Ordered(rs) && HeapOk(rs, brk) && Aligned(lo) && Aligned(hi) && lo < hi
    requires HasHeap(rs) ==> !Heap(rs).Overlaps(lo, hi)
    ensures HeapOk(CutAll(rs, lo, hi), brk)
    ensures HasHeap(rs) ==> HasHeap(CutAll(rs, lo, hi)) && Heap(CutAll(rs, lo, hi)) == Heap(rs)
  {
    var cs := CutAll(rs, lo, hi);
    CutPieces(rs, lo, hi);
    forall c | c in cs
      ensures c.name == HEAP ==> HasHeap(rs) && c == Heap(rs)
      ensures KernelOwned(c.name) ==> !c.writable
    {
      var r :| r in rs && PieceOf(c, r, lo, hi);
    }
    if HasHeap(rs) {
      CutKeeps(rs, lo, hi, Heap(rs));
      HeapIs(cs, Heap(rs));
    }
  }

  lemma MunmapConsistent(p: Proc, lo: nat, hi: nat)
    requires Consistent(p) && Aligned(lo) && Aligned(hi) && lo < hi
    ensures Consistent(Munmap(p, lo, hi))
  {
    MunmapIs(p, lo, hi);
    CutOrdered(p.regions, lo, hi);
    forall a ensures a in Forget(p.mem, lo, hi) <==> Mapped(CutAll(p.regions, lo, hi), a) {
      CutMapped(p.regions, lo, hi, a);
    }
  }

  lemma MunmapWellFormed(p: Proc, lo: nat, hi: nat)
    requires WellFormed(p) && Aligned(lo) && Aligned(hi) && lo < hi
    requires HasHeap(p.regions) ==> !Heap(p.regions).Overlaps(lo, hi)
    ensures WellFormed(Munmap(p, lo, hi))
  {
    MunmapConsistent(p, lo, hi);
    MunmapIs(p, lo, hi);
    MunmapHeap(p.regions, p.brk, lo, hi);
  }

  // ----- brk -----

  /** The list with the heap ending elsewhere. */
  function Resized(rs: seq<Region>, x: nat): seq<Region>
    requires HasHeap(rs)
  {
    rs[HeapIndex(rs) := Heap(rs).(end := AlignUp(x))]
  }

  lemma Splice(rs: seq<Region>, i: nat, g: Region)
    requires i < |rs|
    ensures rs == rs[..i] + [rs[i]] + rs[i + 1..]
    ensures rs[i := g] == rs[..i] + [g] + rs[i + 1..]
  {
  }

  lemma AboveHeap(rs: seq<Region>, x: nat)
    requires Ordered(rs) && BrkAllowed(rs, x)
    ensures forall r :: r in rs[HeapIndex(rs) + 1..] ==> AlignUp(x) <= r.start
  {
    var i := HeapIndex(rs);
    forall r | r in rs[i + 1..]
      ensures rs[i + 1].start <= r.start
    {
      var j :| i + 1 <= j < |rs| && rs[j] == r;
      assert rs[i + 1] in rs;
    }
  }

  lemma SplitAtHeap(rs: seq<Region>, x: nat)
    requires Ordered(rs) && BrkAllowed(rs, x)
    ensures var i := HeapIndex(rs);
            && i < |rs| && rs == rs[..i] + [Heap(rs)] + rs[i + 1..]
            && Resized(rs, x) == rs[..i] + [Heap(rs).(end := AlignUp(x))] + rs[i + 1..]
            && Ordered(rs[..i]) && Ordered(rs[i + 1..])
            && (forall r :: r in rs[..i] ==> r.end <= Heap(rs).start)
            && (forall r :: r in rs[i + 1..] ==> Heap(rs).end <= r.start && AlignUp(x) <= r.start)
  {
    Splice(rs, HeapIndex(rs), Heap(rs).(end := AlignUp(x)));
    OrderedAround(rs, HeapIndex(rs));
    AboveHeap(rs, x);
  }

  lemma BrkOrdered(rs: seq<Region>, x: nat)
    requires Ordered(rs) && BrkAllowed(rs, x)
    ensures Ordered(Resized(rs, x))
  {
    var i := HeapIndex(rs);
    var g := Heap(rs).(end := AlignUp(x));
    SplitAtHeap(rs, x);
    AlignUpIsAligned(x);
    assert Heap(rs).start < AlignUp(x);
    OrderedJoin(rs[..i], [g], g.start);
    OrderedJoin(rs[..i] + [g], rs[i + 1..], g.end);
  }

  lemma BrkMembers(rs: seq<Region>, x: nat, brk: nat)
    requires Ordered(rs) && HeapOk(rs, brk) && BrkAllowed(rs, x)
    ensures var g := Heap(rs).(end := AlignUp(x));
            && (forall r :: r in Resized(rs, x) <==> r == g || (r in rs && r != Heap(rs)))
            && HasHeap(Resized(rs, x)) && Heap(Resized(rs, x)) == g
            && HeapOk(Resized(rs, x), x)
  {
    var i := HeapIndex(rs);
    var h := Heap(rs);
    var g := h.(end := AlignUp(x));
    var qs := Resized(rs, x);
    SplitAtHeap(rs, x);
    forall r
      ensures r in qs <==> r == g || (r in rs && r != h)
    {
      assert r in qs <==> r in rs[..i] || r == g || r in rs[i + 1..];
      assert r in rs <==> r in rs[..i] || r == h || r in rs[i + 1..];
      assert h.start < h.end;
    }
    HeapIs(qs, g);
  }

  lemma BrkMapped(p: Proc, x: nat)
    requires WellFormed(p) && BrkAllowed(p.regions, x)
    ensures forall a :: a in Brk(p, x).mem <==> Mapped(Resized(p.regions, x), a)
  {
    forall a
      ensures a in Brk(p, x).mem <==> Mapped(Resized(p.regions, x), a)
    {
      BrkMappedAt(p.regions, x, a);
      BrkKeys(p, x, a);
    }
  }

  lemma BrkKeys(p: Proc, x: nat, a: int)
    requires BrkAllowed(p.regions, x)
    ensures var h := Heap(p.regions);
            a in Brk(p, x).mem <==> (a in p.mem && !(AlignUp(x) <= a < h.end)) || h.end <= a < AlignUp(x)
    ensures a in Brk(p, x).mem && !(Heap(p.regions).end <= a < AlignUp(x)) ==> Brk(p, x).mem[a] == p.mem[a]
  {
  }

  lemma MappedOne(r: Region, a: int)
    ensures Mapped([r], a) <==> r.Contains(a)
  {
    assert r in [r];
  }

  lemma BrkMappedAt(rs: seq<Region>, x: nat, a: int)
    requires Ordered(rs) && BrkAllowed(rs, x)
    ensures var h := Heap(rs);
            Mapped(Resized(rs, x), a) <==> (Mapped(rs, a) && !(AlignUp(x) <= a < h.end)) || h.end <= a < AlignUp(x)
  {
    var i := HeapIndex(rs);
    var h := Heap(rs);
    var g := h.(end := AlignUp(x));
    SplitAtHeap(rs, x);
    assert h.start < h.end;
    MappedJoin(rs[..i] + [h], rs[i + 1..], a);
    MappedJoin(rs[..i], [h], a);
    MappedJoin(rs[..i] + [g], rs[i + 1..], a);
    MappedJoin(rs[..i], [g], a);
    MappedOne(h, a);
    MappedOne(g, a);
  }

  /** A break that is granted moves the end of the heap and nothing else; fresh pages are dirty. */
  lemma BrkWellFormed(p: Proc, x: nat)
    requires WellFormed(p) && BrkAllowed(p.regions, x)
    ensures WellFormed(Brk(p, x)) && Brk(p, x).regions == Resized(p.regions, x)
  {
    BrkOrdered(p.regions, x);
    BrkMembers(p.regions, x, p.brk);
    BrkMapped(p, x);
  }

  lemma BrkBytes(p: Proc, x: nat)
    requires WellFormed(p) && BrkAllowed(p.regions, x)
    ensures var q, h := Brk(p, x), Heap(p.regions);
            && p.dirty <= q.dirty
            && (forall a :: a in q.mem && a in p.mem ==> q.mem[a] == p.mem[a])
            && (forall a :: a in q.mem && a !in p.mem ==> Page(a) in q.dirty)
  {
    var q, h := Brk(p, x), Heap(p.regions);
    AlignUpIsAligned(x);
    forall a | a in q.mem
      ensures a in p.mem ==> q.mem[a] == p.mem[a]
      ensures a !in p.mem ==> Page(a) in q.dirty
    {
      BrkKeys(p, x, a);
      if h.end <= a < AlignUp(x) {
        GrowthIsFree(p.regions, x, a);
        assert Page(h.end) <= Page(a) < Page(AlignUp(x));
      }
    }
  }

  /** The addresses a growing heap gains were free. */
  lemma GrowthIsFree(rs: seq<Region>, x: nat, a: int)
    requires Ordered(rs) && BrkAllowed(rs, x) && Heap(rs).end <= a < AlignUp(x)
    ensures !Mapped(rs, a)
  {
    var i := HeapIndex(rs);
    SplitAtHeap(rs, x);
    assert Heap(rs).start < Heap(rs).end;
    MappedJoin(rs[..i] + [Heap(rs)], rs[i + 1..], a);
    MappedJoin(rs[..i], [Heap(rs)], a);
    MappedOne(Heap(rs), a);
  }

  // ----- mmap -----

  lemma MapHeap(rs: seq<Region>, brk: nat, at: nat, r: Region)
    requires HeapOk(rs, brk) && at <= |rs| && r.name != HEAP && !KernelOwned(r.name)
    ensures HeapOk(rs[..at] + [r] + rs[at..], brk)
    ensures HasHeap(rs) ==> HasHeap(rs[..at] + [r] + rs[at..])
    ensures forall s :: s in rs[..at] + [r] + rs[at..] <==> s == r || s in rs
  {
    var qs := rs[..at] + [r] + rs[at..];
    assert rs == rs[..at] + rs[at..];
    if HasHeap(rs) {
      HeapIs(qs, Heap(rs));
    }
  }

  lemma MapEffect(p: Proc, at: nat, r: Region, content: seq<Bytes.Byte>)
    requires WellFormed(p) && Allowed([], p, Map(at, r, content))
    ensures var q := Apply(p, Map(at, r, content));
            && WellFormed(q)
            && (forall s :: s in q.regions <==> s == r || s in p.regions)
            && (forall a :: a in q.mem && a !in p.mem ==> r.Contains(a) && Page(a) in q.dirty)
            && (forall a :: a in p.mem ==> a in q.mem && q.mem[a] == p.mem[a])
            && p.dirty <= q.dirty
  {
    var q := Apply(p, Map(at, r, content));
    var rs := p.regions;
    MapOrdered(rs, at, r);
    MapHeap(rs, p.brk, at, r);
    forall a
      ensures a in q.mem <==> Mapped(q.regions, a)
      ensures r.Contains(a) ==> !Mapped(rs, a)
    {
      if Mapped(rs, a) {
        var s :| s in rs && s.Contains(a);
        assert s in q.regions && r in q.regions;
        MapApart(rs, at, r, s);
      }
      if r.Contains(a) {
        assert r in q.regions;
      }
    }
  }

  lemma MapApart(rs: seq<Region>, at: nat, r: Region, s: Region)
    requires Ordered(rs) && at <= |rs| && s in rs
    requires r.start < r.end && Aligned(r.start) && Aligned(r.end)
    requires 0 < at ==> rs[at - 1].end <= r.start
    requires at < |rs| ==> r.end <= rs[at].start
    ensures s.end <= r.start || r.end <= s.start
  {
    var j :| 0 <= j < |rs| && rs[j] == s;
    if j < at {
      assert j == at - 1 || rs[j].end <= rs[at - 1].start;
      assert rs[at - 1] in rs;
    } else {
      assert j == at || rs[at].end <= rs[j].start;
      assert rs[at] in rs;
    }
  }

  lemma OrderedSlices(rs: seq<Region>, at: nat)
    requires Ordered(rs) && at <= |rs|
    ensures Ordered(rs[..at]) && Ordered(rs[at..])
  {
    assert forall r :: r in rs[..at] || r in rs[at..] ==> r in rs;
  }

  lemma MapOrdered(rs: seq<Region>, at: nat, r: Region)
    requires Ordered(rs) && at <= |rs|
    requires r.start < r.end && Aligned(r.start) && Aligned(r.end)
    requires 0 < at ==> rs[at - 1].end <= r.start
    requires at < |rs| ==> r.end <= rs[at].start
    ensures Ordered(rs[..at] + [r] + rs[at..])
  {
    var xs, ys := rs[..at], rs[at..];
    forall s | s in xs
      ensures s.end <= r.start
    {
      var j :| 0 <= j < at && rs[j] == s;
      assert j == at - 1 || rs[j].end <= rs[at - 1].start;
      assert rs[at - 1] in rs;
    }
    forall s | s in ys
      ensures r.end <= s.start
    {
      var j :| at <= j < |rs| && rs[j] == s;
      assert j == at || rs[at].end <= rs[j].start;
      assert rs[at] in rs;
    }
    OrderedSlices(rs, at);
    OrderedJoin(xs, [r], r.start);
    OrderedJoin(xs + [r], ys, r.end);
  }
}

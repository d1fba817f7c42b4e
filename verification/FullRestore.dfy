/** The theorem the repository is built on: a restore undoes everything the user's code did. */
module FullRestore {
  import opened Results
  import opened Kernel
  import opened Layout
  import opened SoftDirty
  import opened MemoryPages
  import opened Injection
  import opened Restoration

  lemma VisibleOrdered(rs: seq<Region>)
    requires Ordered(rs)
    ensures Ordered(Visible(rs))
  {
    if rs != [] {
      var n := |rs| - 1;
      OrderedSlices(rs, n);
      VisibleOrdered(rs[..n]);
      var xs, ys := Visible(rs[..n]), if KernelOwned(rs[n].name) then [] else [rs[n]];
      assert rs[n..] == [rs[n]];
      OrderedAround(rs, n);
      OrderedJoin(xs, ys, rs[n].start);
    }
  }

  lemma NewLocationsOrdered(ms: seq<Memory>, rs: seq<Region>)
    requires Ordered(rs)
    ensures Ordered(NewLocations(ms, rs))
  {
    if rs != [] {
      var n := |rs| - 1;
      OrderedSlices(rs, n);
      NewLocationsOrdered(ms, rs[..n]);
      var xs := NewLocations(ms, rs[..n]);
      if !Existed(ms, rs[n]) {
        OrderedAround(rs, n);
        assert rs[n..] == [rs[n]];
        OrderedJoin(xs, [rs[n]], rs[n].start);
      }
    }
  }

  lemma SnapshotRegions(ck: Proc, s: Snapshot, r: Region)
    requires WellFormed(ck) && SnapshotOf(ck, s)
    ensures (exists m :: m in s.memory && m.region == r) <==> r in ck.regions && !KernelOwned(r.name)
  {
    if r in Visible(ck.regions) {
      var i :| 0 <= i < |s.memory| && Visible(ck.regions)[i] == r;
      assert s.memory[i] in s.memory;
    }
    if m :| m in s.memory && m.region == r {
      var i :| 0 <= i < |s.memory| && s.memory[i] == m;
      assert Visible(ck.regions)[i] in Visible(ck.regions);
    }
  }

  /** The region that continues c. */
  lemma Survivor(ck: Proc, p: Proc, c: Region) returns (r: Region)
    requires WellFormed(ck) && WellFormed(p) && Survives(ck.regions, p.regions) && c in ck.regions
    ensures r in p.regions && r.name == c.name && r.start == c.start && Continues(ck.regions, r)
    ensures c.name != HEAP ==> r == c
  {
    r := if c.name == HEAP then Heap(p.regions) else c;
  }

  /** A current region was there at the checkpoint exactly when it continues a region of it. */
  lemma ExistedIffSurvivor(ck: Proc, s: Snapshot, p: Proc, r: Region)
    requires WellFormed(ck) && SnapshotOf(ck, s) && WellFormed(p) && Survives(ck.regions, p.regions)
    requires r in p.regions && !KernelOwned(r.name)
    ensures Existed(s.memory, r) <==> Continues(ck.regions, r)
  {
    if Existed(s.memory, r) {
      var m :| m in s.memory && m.region.name == r.name && m.region.start == r.start;
      SnapshotRegions(ck, s, m.region);
      var c := m.region;
      assert c in ck.regions;
      var t := Survivor(ck, p, c);
      OrderedDistinct(p.regions, t, r);
    }
    if Continues(ck.regions, r) {
      var c := if r.name == HEAP then Heap(ck.regions) else r;
      SnapshotRegions(ck, s, c);
      var m :| m in s.memory && m.region == c;
      assert Existed(s.memory, r);
    }
  }

  // ----- Counting regions -----

  /** A region is known by its name and its start. */
  function Key(r: Region): (Name, nat) {
    (r.name, r.start)
  }

  function Keys(rs: seq<Region>): set<(Name, nat)> {
    set r | r in rs :: Key(r)
  }

  predicate DistinctKeys(rs: seq<Region>) {
    forall i, j :: 0 <= i < j < |rs| ==> Key(rs[i]) != Key(rs[j])
  }

  function Regions(ms: seq<Memory>): (rs: seq<Region>)
    ensures |rs| == |ms| && forall i :: 0 <= i < |ms| ==> rs[i] == ms[i].region
  {
    seq(|ms|, i requires 0 <= i < |ms| => ms[i].region)
  }

  /** The keys of the checkpoint that are gone. */
  function Lost(ms: seq<Memory>, rs: seq<Region>): set<(Name, nat)> {
    Keys(Regions(ms)) - Keys(rs)
  }

  lemma {:induction false} KeysCount(rs: seq<Region>)
    requires DistinctKeys(rs)
    ensures |Keys(rs)| == |rs|
  {
    if rs != [] {
      var n := |rs| - 1;
      KeysCount(rs[..n]);
      assert rs == rs[..n] + [rs[n]];
      assert Keys(rs) == Keys(rs[..n]) + {Key(rs[n])};
    }
  }

  lemma KeyExisted(ms: seq<Memory>, r: Region)
    ensures Existed(ms, r) <==> Key(r) in Keys(Regions(ms))
  {
    if Existed(ms, r) {
      var m :| m in ms && m.region.name == r.name && m.region.start == r.start;
      var i :| 0 <= i < |ms| && ms[i] == m;
      assert Regions(ms)[i] in Regions(ms);
    }
    if Key(r) in Keys(Regions(ms)) {
      var c :| c in Regions(ms) && Key(c) == Key(r);
      var i :| 0 <= i < |ms| && Regions(ms)[i] == c;
      assert ms[i] in ms;
    }
  }

  lemma {:induction false} NewKeysDistinct(ms: seq<Memory>, rs: seq<Region>)
    requires DistinctKeys(rs)
    ensures DistinctKeys(NewLocations(ms, rs))
  {
    if rs != [] {
      var n := |rs| - 1;
      NewKeysDistinct(ms, rs[..n]);
      var xs := NewLocations(ms, rs[..n]);
      assert rs == rs[..n] + [rs[n]];
      forall i | 0 <= i < |xs|
        ensures Key(xs[i]) != Key(rs[n])
      {
        assert xs[i] in rs[..n];
      }
    }
  }

  lemma NewKeys(ms: seq<Memory>, rs: seq<Region>)
    ensures Keys(NewLocations(ms, rs)) == Keys(rs) - Keys(Regions(ms))
  {
    forall r
      ensures Existed(ms, r) <==> Key(r) in Keys(Regions(ms))
    {
      KeyExisted(ms, r);
    }
  }

  lemma SetBalance<T>(a: set<T>, b: set<T>)
    ensures |b - a| - |a - b| == |b| - |a|
  {
    assert a == (a * b) + (a - b) && b == (a * b) + (b - a);
  }

  /** The count changes by the difference between what is new and what is gone, so it is
      unchanged exactly when as many regions are new as are gone. */
  lemma CountIsBalance(ms: seq<Memory>, rs: seq<Region>)
    requires DistinctKeys(Regions(ms)) && DistinctKeys(rs)
    ensures |NewLocations(ms, rs)| - |Lost(ms, rs)| == |rs| - |ms|
  {
    hide NewLocations, Existed;
    KeysCount(Regions(ms));
    KeysCount(rs);
    NewKeysDistinct(ms, rs);
    KeysCount(NewLocations(ms, rs));
    NewKeys(ms, rs);
    SetBalance(Keys(Regions(ms)), Keys(rs));
  }

  /** Detection agrees with repair: when every region of the checkpoint survives by name and
      start, whatever else became of it, the number of regions is unchanged exactly when there
      is nothing to unmap. */
  lemma CountDetectsNewLocations(ms: seq<Memory>, rs: seq<Region>)
    requires DistinctKeys(Regions(ms)) && DistinctKeys(rs)
    requires forall m :: m in ms ==> Key(m.region) in Keys(rs)
    ensures |ms| == |rs| <==> NewLocations(ms, rs) == []
  {
    CountIsBalance(ms, rs);
    forall k | k in Keys(Regions(ms))
      ensures k in Keys(rs)
    {
      var r :| r in Regions(ms) && Key(r) == k;
      var i :| 0 <= i < |ms| && Regions(ms)[i] == r;
      assert ms[i] in ms;
    }
    assert Lost(ms, rs) == {};
  }

  /** Starts that are distinct make distinct keys; those of a layout are. */
  lemma OrderedKeys(rs: seq<Region>)
    requires Ordered(rs)
    ensures DistinctKeys(rs)
  {
    forall i, j | 0 <= i < j < |rs|
      ensures Key(rs[i]) != Key(rs[j])
    {
      assert rs[i] in rs && rs[i].start < rs[i].end;
    }
  }

  /** What the restore theorem asks for is more than enough for this. */
  lemma SurvivorsAreCounted(ck: Proc, s: Snapshot, p: Proc)
    requires WellFormed(ck) && SnapshotOf(ck, s) && WellFormed(p) && Survives(ck.regions, p.regions)
    ensures |s.memory| == |Visible(p.regions)| <==> NewLocations(s.memory, Visible(p.regions)) == []
  {
    hide NewLocations, Existed;
    VisibleOrdered(ck.regions);
    VisibleOrdered(p.regions);
    OrderedKeys(Visible(ck.regions));
    OrderedKeys(Visible(p.regions));
    assert Regions(s.memory) == Visible(ck.regions);
    forall m | m in s.memory
      ensures Key(m.region) in Keys(Visible(p.regions))
    {
      SnapshotRegions(ck, s, m.region);
      var r := Survivor(ck, p, m.region);
      assert r in Visible(p.regions);
    }
    CountDetectsNewLocations(s.memory, Visible(p.regions));
  }

  // ----- The phases -----

  lemma UpToDirtyFollows(ck: Proc, p: Proc, q: Proc, r: Proc)
    requires Follows(ck, p, q) && SameUpToDirty(q, r)
    ensures Follows(ck, p, r)
  {
    hide WritableAt;
    assert forall a :: Covered(ck, q, a) ==> Covered(ck, r, a);
  }

  /** The heap, if there is one, ends where it did at the checkpoint. */
  ghost predicate HeapBack(ck: Proc, p: Proc) {
    HasHeap(p.regions) ==> HasHeap(ck.regions) && Heap(p.regions) == Heap(ck.regions)
  }

  lemma NamedHeap(ck: Proc, s: Snapshot, p: Proc)
    requires WellFormed(ck) && SnapshotOf(ck, s) && Shaped(ck, p)
    requires Named(s.memory, HEAP).Some? && LastNamed(Visible(p.regions), HEAP).Some?
    ensures HasHeap(ck.regions) && Named(s.memory, HEAP).value.region == Heap(ck.regions)
    ensures HasHeap(p.regions) && LastNamed(Visible(p.regions), HEAP).value == Heap(p.regions)
    ensures Heap(p.regions) == Heap(ck.regions).(end := Heap(p.regions).end)
  {
    SnapshotRegions(ck, s, Named(s.memory, HEAP).value.region);
  }

  lemma AfterBreak(ck: Proc, s: Snapshot, p: Proc, q: Proc, changed: bool)
    requires WellFormed(ck) && SnapshotOf(ck, s) && Shaped(ck, p) && BreakPhase(s, p, q, changed)
    ensures Follows(ck, p, q) && HeapBack(ck, q) && q.regs == p.regs
    ensures q.brk == if changed then AlignUp(ck.brk) else p.brk
  {
    NamedHeap(ck, s, p);
    var c, r := Heap(ck.regions), Heap(p.regions);
    if changed {
      AlignUpIsAligned(c.end);
      AlignUpIsAligned(p.brk);
      assert BrkAllowed(p.regions, c.end);
      BreakFollows(ck, p, c.end);
      BrkMembers(p.regions, c.end, p.brk);
      UpToDirtyFollows(ck, p, Brk(p, c.end), q);
    } else {
      FollowsItself(ck, p);
    }
  }

  lemma AllBack(ck: Proc, p: Proc)
    requires WellFormed(ck) && WellFormed(p) && Survives(ck.regions, p.regions) && HeapBack(ck, p)
    requires forall r :: r in p.regions ==> Continues(ck.regions, r)
    ensures p.regions == ck.regions
  {
    forall r
      ensures r in p.regions <==> r in ck.regions
    {
      if r in ck.regions {
        var t := Survivor(ck, p, r);
      }
    }
    OrderedUnique(p.regions, ck.regions);
  }

  lemma NewIsUnmappable(ck: Proc, s: Snapshot, p: Proc, q: Proc, loc: Region)
    requires WellFormed(ck) && SnapshotOf(ck, s) && Shaped(ck, p) && Shaped(ck, q)
    requires loc in NewLocations(s.memory, Visible(p.regions)) && loc in q.regions
    ensures Allowed(ck.regions, q, Unmap(loc.start, loc.end))
  {
    ExistedIffSurvivor(ck, s, p, loc);
    forall r | r in q.regions && Continues(ck.regions, r)
      ensures !r.Overlaps(loc.start, loc.end)
    {
      OrderedDistinct(q.regions, r, loc);
    }
  }

  lemma UnmapOne(ck: Proc, s: Snapshot, p: Proc, q: Proc, loc: Region)
    requires WellFormed(ck) && SnapshotOf(ck, s) && Shaped(ck, p) && Shaped(ck, q)
    requires loc in NewLocations(s.memory, Visible(p.regions)) && loc in q.regions
    ensures var u := Munmap(q, loc.start, loc.end);
            && Follows(ck, q, u) && u.regs == q.regs && u.brk == q.brk
            && (forall r :: r in u.regions <==> r in q.regions && r != loc)
  {
    NewIsUnmappable(ck, s, p, q, loc);
    UnmapFollows(ck, q, loc.start, loc.end);
    MunmapIs(q, loc.start, loc.end);
    CutWhole(q.regions, loc);
  }

  lemma NewDistinct(s: Snapshot, rs: seq<Region>, n: nat)
    requires Ordered(rs) && n < |NewLocations(s.memory, Visible(rs))|
    ensures var news := NewLocations(s.memory, Visible(rs));
            news[n] in news && news[n] in rs && news[n] !in news[..n] && news[..n + 1] == news[..n] + [news[n]]
  {
    hide Ordered, Visible, NewLocations, Existed;
    VisibleOrdered(rs);
    NewLocationsOrdered(s.memory, Visible(rs));
    NotYetUnmapped(NewLocations(s.memory, Visible(rs)), n);
  }

  /** Unmapping the new regions one by one takes exactly them away. */
  lemma {:induction false} UnmappedFollows(ck: Proc, s: Snapshot, p: Proc, n: nat)
    requires WellFormed(ck) && SnapshotOf(ck, s) && Shaped(ck, p)
    requires n <= |NewLocations(s.memory, Visible(p.regions))|
    ensures var news := NewLocations(s.memory, Visible(p.regions));
            var q := Unmapped(p, news, n);
            && Follows(ck, p, q) && q.regs == p.regs && q.brk == p.brk
            && (forall r :: r in q.regions <==> r in p.regions && r !in news[..n])
  {
    hide NewLocations, Visible, Munmap, SnapshotOf, Survives, Ordered, HeapOk, Mapped;
    if n == 0 {
      FollowsItself(ck, p);
    } else {
      UnmappedFollows(ck, s, p, n - 1);
      var news := NewLocations(s.memory, Visible(p.regions));
      var before := Unmapped(p, news, n - 1);
      NewDistinct(s, p.regions, n - 1);
      UnmapOne(ck, s, p, before, news[n - 1]);
      FollowsOn(ck, p, before, Unmapped(p, news, n));
    }
  }

  lemma NotYetUnmapped(rs: seq<Region>, n: nat)
    requires Ordered(rs) && n < |rs|
    ensures rs[n] !in rs[..n]
  {
    assert rs[n] in rs;
  }

  lemma AfterUnmap(ck: Proc, s: Snapshot, p: Proc, q: Proc, changed: bool)
    requires WellFormed(ck) && SnapshotOf(ck, s) && Shaped(ck, p) && HeapBack(ck, p) && UnmapPhase(s, p, q, changed)
    ensures Follows(ck, p, q) && q.regions == ck.regions && q.regs == p.regs && q.brk == p.brk
  {
    hide Consistent, Ordered, Visible, NewLocations, Existed;
    var news := NewLocations(s.memory, Visible(p.regions));
    SurvivorsAreCounted(ck, s, p);
    UnmappedFollows(ck, s, p, |news|);
    var e := Unmapped(p, news, |news|);
    assert news[..|news|] == news;
    if changed {
      UpToDirtyFollows(ck, p, e, q);
    }
    forall r | r in q.regions
      ensures Continues(ck.regions, r)
    {
      assert r in p.regions && r !in news;
      if !KernelOwned(r.name) {
        ExistedIffSurvivor(ck, s, p, r);
      }
    }
    AllBack(ck, q);
  }

  /** One operation of the window that is executed. */
  lemma WindowStep(ck: Proc, p: Proc, op: UserOp)
    requires WellFormed(ck) && Shaped(ck, p) && UserMode(op) && Allowed(ck.regions, p, op)
    ensures var q := Apply(p, op);
            Follows(ck, p, q) && q.regions == p.regions && q.brk == p.brk && q.mem.Keys == p.mem.Keys
  {
    OpFollows(ck, p, op);
    if op.Write? {
      var r :| r in p.regions && r.writable && r.Contains(op.a);
      assert Mapped(p.regions, op.a);
      assert Apply(p, op).mem.Keys == p.mem.Keys;
    }
  }

  lemma {:induction false} AfterWindow(ck: Proc, p: Proc, tid: int, ops: seq<UserOp>)
    requires WellFormed(ck) && Shaped(ck, p)
    ensures var q := Window(p, tid, ops);
            Follows(ck, p, q) && q.regions == p.regions && q.brk == p.brk && q.mem.Keys == p.mem.Keys
    decreases ops
  {
    hide Shaped, WellFormed, Follows, Apply;
    if ops == [] {
      FollowsItself(ck, p);
    } else {
      var op := ops[0];
      var executed := match op
        case Write(a, b) => exists r :: r in p.regions && r.writable && r.Contains(a)
        case SetRegs(t, regs) => t == tid && tid in p.regs
        case _ => false;
      if executed {
        WindowStep(ck, p, op);
        var q := Apply(p, op);
        assert Shaped(ck, q) by { FollowsShape(ck, p, q); }
        AfterWindow(ck, q, tid, ops[1..]);
        FollowsOn(ck, p, q, Window(q, tid, ops[1..]));
      } else {
        AfterWindow(ck, p, tid, ops[1..]);
      }
    }
  }

  lemma FollowsShape(ck: Proc, p: Proc, q: Proc)
    requires Follows(ck, p, q)
    ensures Shaped(ck, q) && p.dirty <= q.dirty
  {
  }

  lemma HoldsByte(ck: Proc, s: Snapshot, i: int, a: int)
    requires WellFormed(ck) && SnapshotOf(ck, s) && Holds(s.memory, i, a)
    ensures a in ck.mem && 0 <= a - s.memory[i].region.start < |s.memory[i].content|
    ensures s.memory[i].content[a - s.memory[i].region.start] == ck.mem[a]
  {
    var m := s.memory[i];
    var k := a - m.region.start;
    assert HasByte(ck.mem, m.region.start + k, m.content[k]);
  }

  lemma WritableHeld(ck: Proc, s: Snapshot, a: int) returns (i: int)
    requires WellFormed(ck) && SnapshotOf(ck, s) && WritableAt(ck.regions, a)
    ensures Holds(s.memory, i, a)
  {
    var r :| r in ck.regions && r.writable && r.Contains(a);
    SnapshotRegions(ck, s, r);
    var m :| m in s.memory && m.region == r;
    i :| 0 <= i < |s.memory| && s.memory[i] == m;
  }

  /** Every page that differs is dirty and was saved, so writing the dirty pages back
      leaves no difference. */
  lemma AfterPages(ck: Proc, s: Snapshot, p: Proc, q: Proc)
    requires WellFormed(ck) && SnapshotOf(ck, s) && Tracks(ck, p) && p.mem.Keys == ck.mem.Keys
    requires PagesRestored(s.memory, p, q)
    ensures q.mem == ck.mem && Tracks(ck, q) && q == p.(mem := q.mem)
  {
    BytesBackIff(ck, s, p, q);
    SameBytesSameShape(ck, p, q);
    assert forall a :: !Differs(ck, q, a);
  }

  lemma SameLayoutSameKeys(p: Proc, q: Proc)
    requires WellFormed(p) && WellFormed(q) && p.regions == q.regions
    ensures p.mem.Keys == q.mem.Keys
  {
    assert forall a :: a in p.mem <==> a in q.mem;
  }

  lemma AfterFixup(ck: Proc, s: Snapshot, p: Proc, q: Proc, fixup: bool, ops: seq<UserOp>)
    requires WellFormed(ck) && Shaped(ck, p) && FixupPhase(s, p, q, fixup, ops)
    ensures Follows(ck, p, q) && q.regions == p.regions && q.brk == p.brk
  {
    if fixup {
      var tid :| tid in s.registers && q == Window(p, tid, ops);
      AfterWindow(ck, p, tid, ops);
    } else {
      FollowsItself(ck, p);
    }
  }

  lemma RegistersBack(ck: Proc, s: Snapshot, p: Proc, q: Proc)
    requires SnapshotOf(ck, s) && Shaped(ck, p) && q == p.(regs := p.regs + s.registers)
    ensures q.regs == ck.regs && Shaped(ck, q)
  {
  }

  /** The process after the first three phases: the layout is back, and every byte is as it was
      before the restore, or covered. */
  lemma BeforePages(ck: Proc, s: Snapshot, p: Proc, p1: Proc, p2: Proc, p3: Proc, b: bool, u: bool,
      ops: seq<UserOp>)
    requires WellFormed(ck) && SnapshotOf(ck, s) && Shaped(ck, p)
    requires BreakPhase(s, p, p1, b) && UnmapPhase(s, p1, p2, u) && FixupPhase(s, p2, p3, b || u, ops)
    ensures Follows(ck, p, p3) && p3.regions == ck.regions && p3.mem.Keys == ck.mem.Keys
    ensures b == HeapMoved(ck, p) && p3.brk == if b then AlignUp(ck.brk) else p.brk
  {
    assert b == HeapMoved(ck, p) by {
      NamedHeap(ck, s, p);
    }
    AfterBreak(ck, s, p, p1, b);
    hide BreakPhase, UnmapPhase;
    AfterUnmap(ck, s, p1, p2, u);
    AfterFixup(ck, s, p2, p3, b || u, ops);
    hide FixupPhase;
    FollowsOn(ck, p, p1, p2);
    FollowsOn(ck, p, p2, p3);
    SameLayoutSameKeys(p3, ck);
  }

  /** Whatever the bytes are: a restore puts layout and registers back, and it puts all bytes back
      exactly when every byte that differed before it is on a page that is dirty in the end, in a
      writable region of the checkpoint. */
  lemma RestoreBringsBytesBackIff(ck: Proc, s: Snapshot, p: Proc, q: Proc)
    requires WellFormed(ck) && SnapshotOf(ck, s) && Shaped(ck, p) && RestoreStep(s, p, q)
    ensures q.regions == ck.regions && q.regs == ck.regs && p.dirty <= q.dirty
    ensures q.brk == if HeapMoved(ck, p) then AlignUp(ck.brk) else p.brk
    ensures q.mem == ck.mem <==> forall a :: Differs(ck, p, a) ==> Covered(ck, q, a)
  {
    var ops :| RestoreWith(s, p, q, ops);
    var p1, p2, p3, p4, b, u :| Phases(s, p, p1, p2, p3, p4, q, b, u, ops);
    BeforePages(ck, s, p, p1, p2, p3, b, u, ops);
    hide BreakPhase, UnmapPhase, FixupPhase;
    BytesBackIff(ck, s, p3, p4);
    SameCovers(ck, p, p3);
    RegistersBack(ck, s, p3, p3.(regs := p3.regs + s.registers));
    assert forall a :: Covered(ck, q, a) <==> Covered(ck, p3, a);
  }

  lemma SameCovers(ck: Proc, p: Proc, q: Proc)
    requires Follows(ck, p, q) && q.mem.Keys == ck.mem.Keys
    ensures (forall a :: Differs(ck, q, a) ==> Covered(ck, q, a))
       <==> (forall a :: Differs(ck, p, a) ==> Covered(ck, q, a))
  {
    hide Shaped, WritableAt;
    assert forall a :: a in ck.mem && !Covered(ck, q, a) ==> (Differs(ck, p, a) <==> Differs(ck, q, a));
  }

  /** When the layout did not move, that is known before the restore. */
  lemma RestoreInPlaceBringsBytesBackIff(ck: Proc, s: Snapshot, p: Proc, q: Proc)
    requires WellFormed(ck) && SnapshotOf(ck, s) && Shaped(ck, p) && RestoreStep(s, p, q) && p.regions == ck.regions
    ensures q.mem == ck.mem <==> forall a :: Differs(ck, p, a) ==> Covered(ck, p, a)
  {
    RestoreBringsBytesBackIff(ck, s, p, q);
    NothingToFixUp(ck, s, p, q);
    assert forall a :: Covered(ck, q, a) <==> Covered(ck, p, a);
  }

  lemma NothingToFixUp(ck: Proc, s: Snapshot, p: Proc, q: Proc)
    requires WellFormed(ck) && SnapshotOf(ck, s) && Shaped(ck, p) && RestoreStep(s, p, q) && p.regions == ck.regions
    ensures q.dirty == p.dirty
  {
    var ops :| RestoreWith(s, p, q, ops);
    var p1, p2, p3, p4, b, u :| Phases(s, p, p1, p2, p3, p4, q, b, u, ops);
    NamedHeap(ck, s, p);
  }

  /** The whole of Restore: layout, every byte and every register are those of the checkpoint,
      and what the next restore relies on still holds. The program break is back too, except
      that a heap that had to be resized gets a page-aligned break. */
  lemma RestoreUndoesEverything(ck: Proc, s: Snapshot, p: Proc, q: Proc)
    requires WellFormed(ck) && SnapshotOf(ck, s) && Tracks(ck, p) && RestoreStep(s, p, q)
    ensures q.regions == ck.regions && q.mem == ck.mem && q.regs == ck.regs
    ensures Tracks(ck, q)
    ensures q.brk == if HeapMoved(ck, p) then AlignUp(ck.brk) else p.brk
  {
    RestoreBringsBytesBackIff(ck, s, p, q);
    assert q.mem == ck.mem;
    RestoredIsShaped(ck, s, p, q);
    assert forall a :: !Differs(ck, q, a);
  }

  lemma RestoredIsShaped(ck: Proc, s: Snapshot, p: Proc, q: Proc)
    requires WellFormed(ck) && SnapshotOf(ck, s) && Shaped(ck, p) && RestoreStep(s, p, q)
    ensures Shaped(ck, q)
  {
    var ops :| RestoreWith(s, p, q, ops);
    var p1, p2, p3, p4, b, u :| Phases(s, p, p1, p2, p3, p4, q, b, u, ops);
    BeforePages(ck, s, p, p1, p2, p3, b, u, ops);
    hide BreakPhase, UnmapPhase, FixupPhase;
    SameBytesSameShape(ck, p3, p4);
    RegistersBack(ck, s, p4, q);
  }

  lemma SameBytesSameShape(ck: Proc, p: Proc, q: Proc)
    requires Shaped(ck, p) && q == p.(mem := q.mem) && q.mem.Keys == p.mem.Keys
    ensures Shaped(ck, q)
  {
    assert forall a :: a in q.mem <==> a in p.mem;
  }

  /** A restore leaves every byte as it was, or covered; and what is covered is as it was at the
      checkpoint. */
  lemma RestoreFollows(ck: Proc, s: Snapshot, p: Proc, q: Proc)
    requires WellFormed(ck) && SnapshotOf(ck, s) && Shaped(ck, p) && RestoreStep(s, p, q)
    ensures Follows(ck, p, q) && forall a :: Covered(ck, q, a) ==> !Differs(ck, q, a)
  {
    RestoredIsShaped(ck, s, p, q);
    var ops :| RestoreWith(s, p, q, ops);
    var p1, p2, p3, p4, b, u :| Phases(s, p, p1, p2, p3, p4, q, b, u, ops);
    BeforePages(ck, s, p, p1, p2, p3, b, u, ops);
    hide BreakPhase, UnmapPhase, FixupPhase, Shaped;
    forall a | a in ck.mem
      ensures Covered(ck, q, a) ==> a in q.mem && q.mem[a] == ck.mem[a]
      ensures !Covered(ck, q, a) ==> a in q.mem && a in p3.mem && q.mem[a] == p3.mem[a]
    {
      PageBack(ck, s, p3, p4, a);
    }
    assert forall a :: Covered(ck, q, a) <==> Covered(ck, p3, a);
  }

  lemma PageBack(ck: Proc, s: Snapshot, p: Proc, q: Proc, a: int)
    requires WellFormed(ck) && SnapshotOf(ck, s) && p.mem.Keys == ck.mem.Keys && a in ck.mem
    requires PagesRestored(s.memory, p, q)
    ensures a in p.mem && a in q.mem && q.mem[a] == if Covered(ck, p, a) then ck.mem[a] else p.mem[a]
  {
    assert a in p.mem.Keys;
    if WritableAt(ck.regions, a) {
      var i := WritableHeld(ck, s, a);
      HoldsByte(ck, s, i, a);
    } else if i :| Holds(s.memory, i, a) {
      HeldIsWritable(ck, s, i, a);
    }
  }

  lemma HeldIsWritable(ck: Proc, s: Snapshot, i: int, a: int)
    requires WellFormed(ck) && SnapshotOf(ck, s) && Holds(s.memory, i, a)
    ensures WritableAt(ck.regions, a)
  {
    SnapshotRegions(ck, s, s.memory[i].region);
    assert s.memory[i] in s.memory;
  }

  /** The heap ends elsewhere than at the checkpoint. */
  ghost predicate HeapMoved(ck: Proc, p: Proc) {
    HasHeap(ck.regions) && HasHeap(p.regions) && Heap(ck.regions).end != Heap(p.regions).end
  }

  // ----- The limits of a restore -----

  /** The break itself comes back exactly when the heap had to be resized and the break was page
      aligned at the checkpoint, or the heap kept its end and the break was left alone. */
  lemma BreakBackIff(ck: Proc, s: Snapshot, p: Proc, q: Proc)
    requires WellFormed(ck) && SnapshotOf(ck, s) && Shaped(ck, p) && RestoreStep(s, p, q)
    ensures q.brk == ck.brk <==> if HeapMoved(ck, p) then Aligned(ck.brk) else p.brk == ck.brk
  {
    RestoreBringsBytesBackIff(ck, s, p, q);
    AlignUpIsAligned(ck.brk);
  }

  const SMALL_HEAP: Region := Region(HEAP, 4096, 8192, 0, true, true, false, false, 0, 0, 0)

  /** A process whose break is in the middle of a page. */
  function OddBreak(regs: Regs): Proc {
    Proc([SMALL_HEAP], 5000, Fresh(4096, Zeros(4096)), {}, map[1 := regs])
  }

  lemma OddBreakWellFormed(regs: Regs)
    ensures WellFormed(OddBreak(regs)) && HasHeap([SMALL_HEAP]) && Heap([SMALL_HEAP]) == SMALL_HEAP
  {
    HeapIs([SMALL_HEAP], SMALL_HEAP);
    forall a {
      MappedOne(SMALL_HEAP, a);
    }
  }

  /** Its checkpoint. */
  function OddSnapshot(regs: Regs): Snapshot {
    Snapshot([Memory(SMALL_HEAP, Zeros(4096))], map[1 := regs])
  }

  /** It asks for one more page. */
  function OddGrown(regs: Regs): Proc {
    Apply(ClearRefs(OddBreak(regs)), MoveBreak(9000))
  }

  /** The restore succeeds, and yet the break is not what it was. */
  lemma BreakMayBeLost(regs: Regs)
    ensures SnapshotOf(OddBreak(regs), OddSnapshot(regs))
    ensures exists q :: RestoreStep(OddSnapshot(regs), OddGrown(regs), q) && q.brk != OddBreak(regs).brk
  {
    var ck, p := OddBreak(regs), OddGrown(regs);
    var q := Effect(p, SYS_BRK, 8192, 0);
    OddSnapshotIsOne(regs);
    OddRestore(regs);
    hide SnapshotOf, RestoreStep, HeapMoved, Apply, ClearRefs, Effect;
    OddBreakWellFormed(regs);
    TracksFromCheckpoint(ck);
    OpTracks(ck, ClearRefs(ck), MoveBreak(9000));
    OddBreakMoves(regs);
    BreakBackIff(ck, OddSnapshot(regs), p, q);
  }

  lemma OddSnapshotIsOne(regs: Regs)
    ensures SnapshotOf(OddBreak(regs), OddSnapshot(regs))
  {
    OneVisible(SMALL_HEAP);
  }

  lemma OneVisible(r: Region)
    ensures Visible([r]) == if KernelOwned(r.name) then [] else [r]
    ensures LastNamed([r], r.name) == Some(r)
  {
    assert [r][..0] == [];
  }

  const GROWN_HEAP: Region := SMALL_HEAP.(end := 12288)

  lemma OddGrownIs(regs: Regs)
    ensures var p := OddGrown(regs);
            p.regions == [GROWN_HEAP] && p.brk == 9000 && p.dirty == Pages(8192, 12288) && p.regs == map[1 := regs]
  {
    hide Fresh, Zeros, Pages, Forget;
    assert AlignUp(9000) == 12288;
    assert {} + Pages(8192, 12288) == Pages(8192, 12288);
  }

  /** The break goes back to the old end of the heap. */
  lemma OddShrunkIs(regs: Regs)
    ensures var p := OddGrown(regs);
            var q := Effect(p, SYS_BRK, 8192, 0);
            && Returned(p, SYS_BRK, 8192, 0) == 8192
            && q.regions == [SMALL_HEAP] && q.dirty == Pages(8192, 12288) && q.regs == map[1 := regs]
  {
    OddGrownIs(regs);
    hide OddGrown, Fresh, Zeros, Pages, Forget;
    assert AlignUp(8192) == 8192;
    var p := OddGrown(regs);
    assert p.dirty + Pages(12288, 8192) == p.dirty by { NoPages(p.dirty); }
  }

  lemma NoPages(d: set<int>)
    ensures d + Pages(12288, 8192) == d
  {
  }

  lemma OddPages(regs: Regs, q: Proc)
    requires q.dirty == Pages(8192, 12288)
    ensures PagesRestored(OddSnapshot(regs).memory, q, q)
  {
    hide Zeros;
  }

  lemma OddBreakPhase(regs: Regs)
    ensures var p := OddGrown(regs);
            BreakPhase(OddSnapshot(regs), p, Effect(p, SYS_BRK, 8192, 0), true)
  {
    hide OddGrown, Effect, Returned, Visible, LastNamed, Zeros, Pages;
    OddGrownIs(regs);
    OddShrunkIs(regs);
    OneVisible(GROWN_HEAP);
    assert Named(OddSnapshot(regs).memory, HEAP) == Some(OddSnapshot(regs).memory[0]);
  }

  lemma NoUnmapping(s: Snapshot, p: Proc)
    requires |s.memory| == |Visible(p.regions)|
    ensures UnmapPhase(s, p, p, false)
  {
  }

  lemma NothingToFix(s: Snapshot, p: Proc, tid: int)
    requires tid in s.registers
    ensures FixupPhase(s, p, p, true, [])
  {
    assert Window(p, tid, []) == p;
  }

  lemma OddRestore(regs: Regs)
    ensures RestoreStep(OddSnapshot(regs), OddGrown(regs), Effect(OddGrown(regs), SYS_BRK, 8192, 0))
  {
    var s, p := OddSnapshot(regs), OddGrown(regs);
    var q := Effect(p, SYS_BRK, 8192, 0);
    hide OddGrown, Effect, PagesRestored, Visible, BreakPhase, UnmapPhase, FixupPhase, Zeros;
    OddShrunkIs(regs);
    OneVisible(SMALL_HEAP);
    OddBreakPhase(regs);
    NoUnmapping(s, q);
    NothingToFix(s, q, 1);
    OddPages(regs, q);
    assert q.regs + s.registers == q.regs;
    assert Phases(s, p, q, q, q, q, q, true, false, []);
    assert RestoreWith(s, p, q, []);
  }

  lemma OddBreakMoves(regs: Regs)
    ensures HeapMoved(OddBreak(regs), OddGrown(regs))
  {
    OddBreakWellFormed(regs);
    assert AlignUp(9000) == 12288;
    BrkMembers([SMALL_HEAP], 9000, 5000);
    hide WellFormed, Ordered, HeapOk, Commit, Fresh, Zeros, Mapped;
  }

  /** Writing the dirty pages back restores the bytes exactly when every byte that differs is
      on a dirty page of a writable region. A second checkpoint, which clears the bits while
      restores still go back to the first one, can make that false. */
  lemma BytesBackIff(ck: Proc, s: Snapshot, p: Proc, q: Proc)
    requires WellFormed(ck) && SnapshotOf(ck, s) && p.mem.Keys == ck.mem.Keys
    requires PagesRestored(s.memory, p, q)
    ensures q.mem == ck.mem <==> forall a :: Differs(ck, p, a) ==> Page(a) in p.dirty && WritableAt(ck.regions, a)
  {
    if forall a :: Differs(ck, p, a) ==> Page(a) in p.dirty && WritableAt(ck.regions, a) {
      forall a | a in ck.mem
        ensures a in q.mem && q.mem[a] == ck.mem[a]
      {
        ByteBack(ck, s, p, q, a);
      }
      assert q.mem == ck.mem;
    }
    forall a | q.mem == ck.mem && Differs(ck, p, a)
      ensures Page(a) in p.dirty && WritableAt(ck.regions, a)
    {
      if i :| Holds(s.memory, i, a) {
        SnapshotRegions(ck, s, s.memory[i].region);
        assert s.memory[i] in s.memory;
      }
    }
  }

  lemma ClearedIsShaped(ck: Proc, p: Proc)
    requires Shaped(ck, p)
    ensures Shaped(ck, ClearRefs(p)) && ClearRefs(p).regions == p.regions
    ensures forall a :: (Differs(ck, ClearRefs(p), a) <==> Differs(ck, p, a)) && !Covered(ck, ClearRefs(p), a)
  {
  }

  lemma ShapedSameKeys(ck: Proc, p: Proc)
    requires WellFormed(ck) && Shaped(ck, p) && p.regions == ck.regions
    ensures p.mem.Keys == ck.mem.Keys
  {
    SameLayoutSameKeys(p, ck);
  }

  lemma NothingDiffers(ck: Proc, p: Proc)
    requires p.mem.Keys == ck.mem.Keys
    ensures p.mem == ck.mem <==> forall a :: !Differs(ck, p, a)
  {
    if forall a :: !Differs(ck, p, a) {
      forall a | a in ck.mem
        ensures p.mem[a] == ck.mem[a]
      {
        assert !Differs(ck, p, a);
      }
    }
  }

  // Which pages a restore dirties.

  /** The pages that come back where the heap had shrunk. */
  ghost function Regrown(ck: Proc, p: Proc): set<int> {
    if HeapMoved(ck, p) then Pages(Heap(p.regions).end, Heap(ck.regions).end) else {}
  }

  predicate Writes(ops: seq<UserOp>, n: int) {
    exists op :: op in ops && op.Write? && Page(op.a) == n
  }

  /** All that a restore can dirty: regrown heap, code in which a call was planted, and what the
      code of the user writes when it runs in between. */
  ghost predicate MayDirty(ck: Proc, p: Proc, ops: seq<UserOp>, n: int) {
    n in Regrown(ck, p) || IsCodePage(p.regs, ck.regs.Keys, n) || Writes(ops, n)
  }

  lemma BreakDirties(ck: Proc, s: Snapshot, p: Proc, q: Proc, changed: bool)
    requires WellFormed(ck) && SnapshotOf(ck, s) && Shaped(ck, p) && BreakPhase(s, p, q, changed)
    ensures p.dirty + Regrown(ck, p) <= q.dirty
    ensures forall n :: n in q.dirty ==> n in p.dirty + Regrown(ck, p) || IsCodePage(p.regs, ck.regs.Keys, n)
  {
    NamedHeap(ck, s, p);
    if changed {
      var end := Heap(ck.regions).end;
      AlignUpIsAligned(end);
      AlignUpIsAligned(p.brk);
      assert BrkAllowed(p.regions, end);
      assert Effect(p, SYS_BRK, end, 0).dirty == p.dirty + Pages(Heap(p.regions).end, end);
    }
  }

  lemma {:induction false} UnmappedDirties(p: Proc, rs: seq<Region>, n: nat)
    requires n <= |rs|
    ensures Unmapped(p, rs, n).dirty == p.dirty
  {
    if n > 0 {
      UnmappedDirties(p, rs, n - 1);
      MunmapIs(Unmapped(p, rs, n - 1), rs[n - 1].start, rs[n - 1].end);
      hide Munmap;
    }
  }

  lemma UnmapDirties(s: Snapshot, p: Proc, q: Proc, changed: bool)
    requires UnmapPhase(s, p, q, changed)
    ensures p.dirty <= q.dirty && forall n :: n in q.dirty ==> n in p.dirty || IsCodePage(p.regs, s.registers.Keys, n)
  {
    hide Visible, NewLocations;
    var news := NewLocations(s.memory, Visible(p.regions));
    UnmappedDirties(p, news, |news|);
    hide Unmapped;
  }

  lemma {:induction false} WindowDirties(p: Proc, tid: int, ops: seq<UserOp>)
    ensures var q := Window(p, tid, ops);
            p.dirty <= q.dirty && forall n :: n in q.dirty ==> n in p.dirty || Writes(ops, n)
    decreases ops
  {
    if ops != [] {
      var op, rest := ops[0], ops[1..];
      assert op in ops && forall o :: o in rest ==> o in ops;
      assert forall n :: Writes(rest, n) ==> Writes(ops, n);
      if op.Write? {
        assert Writes(ops, Page(op.a));
      }
      WindowDirties(p, tid, rest);
      WindowDirties(Apply(p, op), tid, rest);
      hide Writes, Page;
    }
  }

  lemma RestoreDirties(ck: Proc, s: Snapshot, p: Proc, q: Proc, ops: seq<UserOp>)
    requires WellFormed(ck) && SnapshotOf(ck, s) && Shaped(ck, p) && RestoreWith(s, p, q, ops)
    ensures p.dirty + Regrown(ck, p) <= q.dirty
    ensures forall n :: n in q.dirty ==> n in p.dirty || MayDirty(ck, p, ops, n)
  {
    var p1, p2, p3, p4, b, u :| Phases(s, p, p1, p2, p3, p4, q, b, u, ops);
    AfterBreak(ck, s, p, p1, b);
    BreakDirties(ck, s, p, p1, b);
    UnmapDirties(s, p1, p2, u);
    if b || u {
      var tid :| tid in s.registers && p3 == Window(p2, tid, ops);
      WindowDirties(p2, tid, ops);
    }
    hide *;
  }

  /** What can be said about the bytes before the restore: they come back if those that differ are
      on pages that are dirty or belong to the heap that has to grow again, in writable regions; and
      only if they are on such pages, or on those where calls are planted or the code of the user writes. */
  lemma BytesBackBounds(ck: Proc, s: Snapshot, p: Proc, q: Proc, ops: seq<UserOp>)
    requires WellFormed(ck) && SnapshotOf(ck, s) && Shaped(ck, p) && RestoreWith(s, p, q, ops)
    ensures (forall a :: Differs(ck, p, a) ==> WritableAt(ck.regions, a) && Page(a) in p.dirty + Regrown(ck, p)) ==>
              q.mem == ck.mem
    ensures q.mem == ck.mem ==>
              forall a :: Differs(ck, p, a) ==>
                WritableAt(ck.regions, a) && (Page(a) in p.dirty || MayDirty(ck, p, ops, Page(a)))
  {
    RestoreDirties(ck, s, p, q, ops);
    assert RestoreStep(s, p, q);
    RestoreBringsBytesBackIff(ck, s, p, q);
    hide WellFormed, SnapshotOf, Shaped, RestoreWith, RestoreStep, Regrown, MayDirty, WritableAt, Page;
  }

  /** A second checkpoint clears the bits of what has changed since the first one, and a restore
      still goes back to the first. Right after it the bytes that differ come back exactly when all
      of them are on pages that the restore itself dirties: surely where the heap has to grow again,
      and nowhere but there, where calls are planted, and where the code of the user writes. When
      the layout did not move, that is only when there was nothing to do. */
  lemma SecondCheckpointForgets(ck: Proc, s: Snapshot, p: Proc, q: Proc, ops: seq<UserOp>)
    requires WellFormed(ck) && SnapshotOf(ck, s) && Shaped(ck, p) && RestoreWith(s, ClearRefs(p), q, ops)
    ensures q.mem == ck.mem <==> forall a :: Differs(ck, p, a) ==> Covered(ck, q, a)
    ensures (forall a :: Differs(ck, p, a) ==> WritableAt(ck.regions, a) && Page(a) in Regrown(ck, p)) ==>
              q.mem == ck.mem
    ensures q.mem == ck.mem ==>
              forall a :: Differs(ck, p, a) ==> WritableAt(ck.regions, a) && MayDirty(ck, p, ops, Page(a))
    ensures p.regions == ck.regions ==> (q.mem == ck.mem <==> p.mem == ck.mem)
  {
    var p' := ClearRefs(p);
    ClearedIsShaped(ck, p);
    ClearedDirties(ck, p, ops);
    assert RestoreStep(s, p', q);
    hide Shaped, RestoreStep, RestoreWith, SnapshotOf, ClearRefs, Regrown, MayDirty;
    RestoreBringsBytesBackIff(ck, s, p', q);
    BytesBackBounds(ck, s, p', q, ops);
    if p.regions == ck.regions {
      RestoreInPlaceBringsBytesBackIff(ck, s, p', q);
      ShapedSameKeys(ck, p);
      NothingDiffers(ck, p);
    }
  }

  lemma ClearedDirties(ck: Proc, p: Proc, ops: seq<UserOp>)
    ensures ClearRefs(p).dirty == {} && Regrown(ck, ClearRefs(p)) == Regrown(ck, p)
    ensures forall n :: MayDirty(ck, ClearRefs(p), ops, n) <==> MayDirty(ck, p, ops, n)
  {
  }

  /** The process of before writes a byte and is checkpointed again. */
  function OddWritten(regs: Regs): Proc {
    ClearRefs(Apply(ClearRefs(OddBreak(regs)), Write(5000, 1)))
  }

  /** It is restored without error, and the byte does not come back. */
  lemma SecondCheckpointLosesBytes(regs: Regs)
    ensures var ck, s, p := OddBreak(regs), OddSnapshot(regs), OddWritten(regs);
            && WellFormed(ck) && SnapshotOf(ck, s) && Allowed(ck.regions, ClearRefs(ck), Write(5000, 1))
            && RestoreStep(s, p, p) && p.mem != ck.mem
  {
    var ck, s, p := OddBreak(regs), OddSnapshot(regs), OddWritten(regs);
    hide WellFormed, SnapshotOf, RestoreStep;
    OddBreakWellFormed(regs);
    OddSnapshotIsOne(regs);
    OddStays(regs);
    assert SMALL_HEAP in ck.regions && SMALL_HEAP.Contains(5000);
    assert p.mem[5000] == 1 && ck.mem[5000] == 0;
  }

  /** With the heap where it was, no new region and no dirty page, a restore does nothing. */
  lemma OddStays(regs: Regs)
    ensures RestoreStep(OddSnapshot(regs), OddWritten(regs), OddWritten(regs))
  {
    var s, p := OddSnapshot(regs), OddWritten(regs);
    assert p.regions == [SMALL_HEAP] && p.dirty == {} && p.regs == s.registers;
    hide OddWritten, Visible, LastNamed, Zeros, NewLocations;
    OneVisible(SMALL_HEAP);
    assert BreakPhase(s, p, p, false) by {
      assert Named(s.memory, HEAP) == Some(s.memory[0]);
    }
    NoUnmapping(s, p);
    assert FixupPhase(s, p, p, false, []);
    assert PagesRestored(s.memory, p, p);
    hide BreakPhase, UnmapPhase, FixupPhase, PagesRestored;
    assert p.regs + s.registers == p.regs;
    assert Phases(s, p, p, p, p, p, p, false, false, []);
    assert RestoreWith(s, p, p, []);
  }

  lemma ByteBack(ck: Proc, s: Snapshot, p: Proc, q: Proc, a: int)
    requires WellFormed(ck) && SnapshotOf(ck, s) && a in ck.mem && a in p.mem
    requires Differs(ck, p, a) ==> Page(a) in p.dirty && WritableAt(ck.regions, a)
    requires PagesRestored(s.memory, p, q)
    ensures a in q.mem && q.mem[a] == ck.mem[a]
  {
    if Differs(ck, p, a) {
      var i := WritableHeld(ck, s, a);
      HoldsByte(ck, s, i, a);
    } else if i :| Holds(s.memory, i, a) {
      HoldsByte(ck, s, i, a);
    }
  }

  /** MemoryChanged compares the two lists position by position, all fields. */
  predicate LayoutDiffers(ms: seq<Memory>, rs: seq<Region>) {
    |ms| != |rs| || exists i :: 0 <= i < |ms| && ms[i].region != rs[i]
  }

  /** Once the break is reset and the new regions are gone, MemoryChanged reports no change. */
  lemma RepairedLayoutIsUnchanged(ck: Proc, s: Snapshot, p: Proc, p1: Proc, p2: Proc, b: bool, u: bool)
    requires WellFormed(ck) && SnapshotOf(ck, s) && Shaped(ck, p)
    requires BreakPhase(s, p, p1, b) && UnmapPhase(s, p1, p2, u)
    ensures !LayoutDiffers(s.memory, Visible(p2.regions))
  {
    AfterBreak(ck, s, p, p1, b);
    AfterUnmap(ck, s, p1, p2, u);
  }

  /** Why every region of the checkpoint has to survive: one region swapped for another keeps
      the count, so the restore does not notice that there is something to unmap. */
  lemma SwapGoesUnnoticed(text: string, m: Memory, a: Region, b: Region)
    requires m.region == a && a.name == b.name == Path(text) && a.start != b.start
    ensures |[m]| == |Visible([b])| && NewLocations([m], Visible([b])) == [b]
  {
    assert Visible([b]) == [b];
    assert [b][..0] == [];
    assert !Existed([m], b);
  }
}

/**
 The invariant that makes a restore possible: from the moment the soft-dirty bits
 are cleared, every byte that differs from the checkpoint lies in a writable region
 of the checkpoint and on a page whose bit is set.
 */
module SoftDirty {
  import opened Kernel
  import opened Layout

  ghost predicate Differs(ck: Proc, p: Proc, a: int) {
    a in ck.mem && a in p.mem && ck.mem[a] != p.mem[a]
  }

  /** A restore to ck writes address a back: its page is dirty, and its bytes were saved. */
  ghost predicate Covered(ck: Proc, p: Proc, a: int) {
    Page(a) in p.dirty && WritableAt(ck.regions, a)
  }

  /** Layout and threads are such that a restore to ck can deal with them. */
  ghost predicate Shaped(ck: Proc, p: Proc) {
    WellFormed(p) && Survives(ck.regions, p.regions) && p.regs.Keys == ck.regs.Keys
  }

  ghost predicate Tracks(ck: Proc, p: Proc) {
    Shaped(ck, p) && forall a :: Differs(ck, p, a) ==> Covered(ck, p, a)
  }

  /** q came from p by steps after which every byte is as it was, or covered. */
  ghost predicate Follows(ck: Proc, p: Proc, q: Proc) {
    && Shaped(ck, q) && p.dirty <= q.dirty
    && forall a :: a in q.mem && a in ck.mem ==> (a in p.mem && q.mem[a] == p.mem[a]) || Covered(ck, q, a)
  }

  lemma FollowsItself(ck: Proc, p: Proc)
    requires Shaped(ck, p)
    ensures Follows(ck, p, p)
  {
  }

  lemma FollowsOn(ck: Proc, p: Proc, q: Proc, r: Proc)
    requires Follows(ck, p, q) && Follows(ck, q, r)
    ensures Follows(ck, p, r)
  {
    hide Shaped, WritableAt;
    assert forall a :: Covered(ck, q, a) ==> Covered(ck, r, a);
  }

  lemma FollowsTracks(ck: Proc, p: Proc, q: Proc)
    requires Tracks(ck, p) && Follows(ck, p, q)
    ensures Tracks(ck, q)
  {
    hide Shaped, WritableAt;
    forall a | Differs(ck, q, a)
      ensures Covered(ck, q, a)
    {
      assert Covered(ck, q, a) || Differs(ck, p, a);
    }
  }

  /** Just after clear_refs nothing differs and nothing is dirty. */
  lemma TracksFromCheckpoint(ck: Proc)
    requires WellFormed(ck)
    ensures Tracks(ck, ClearRefs(ck))
  {
  }

  /** A region of the checkpoint that is not the heap occupies its addresses for good. */
  lemma StillThere(ck: Proc, p: Proc, c: Region)
    requires Survives(ck.regions, p.regions) && c in ck.regions
    ensures c.name != HEAP ==> c in p.regions
  {
  }

  /** Bytes of the checkpoint at an address that is not mapped any more belonged to the heap. */
  lemma UnmappedWasHeap(ck: Proc, p: Proc, a: int)
    requires WellFormed(ck) && WellFormed(p) && Survives(ck.regions, p.regions)
    requires a in ck.mem && a !in p.mem
    ensures WritableAt(ck.regions, a)
  {
    var c :| c in ck.regions && c.Contains(a);
    StillThere(ck, p, c);
    assert !Mapped(p.regions, a);
  }

  /** What is writable now and belongs to the checkpoint was writable then. */
  lemma StillWritable(ck: Proc, p: Proc, a: int)
    requires WellFormed(ck) && WellFormed(p) && Survives(ck.regions, p.regions)
    requires WritableAt(p.regions, a) && a in ck.mem
    ensures WritableAt(ck.regions, a)
  {
    var r :| r in p.regions && r.writable && r.Contains(a);
    var c :| c in ck.regions && c.Contains(a);
    if c.name != HEAP {
      StillThere(ck, p, c);
      OrderedDistinct(p.regions, c, r);
    }
  }

  lemma WriteFollows(ck: Proc, p: Proc, a: int, b: Bytes.Byte)
    requires WellFormed(ck) && Shaped(ck, p) && WritableAt(p.regions, a)
    ensures Follows(ck, p, Apply(p, Write(a, b)))
  {
    var q := Apply(p, Write(a, b));
    assert Mapped(p.regions, a) by {
      var r :| r in p.regions && r.writable && r.Contains(a);
    }
    if a in ck.mem {
      StillWritable(ck, p, a);
    }
    assert q.mem.Keys == p.mem.Keys;
  }

  /** Bytes that were already mapped kept their value; the others are on fresh, dirty pages. */
  lemma GrownFollows(ck: Proc, p: Proc, q: Proc)
    requires WellFormed(ck) && Shaped(ck, p) && WellFormed(q) && Survives(ck.regions, q.regions)
    requires q.regs.Keys == p.regs.Keys && p.dirty <= q.dirty
    requires forall a :: a in q.mem && a in p.mem ==> q.mem[a] == p.mem[a]
    requires forall a :: a in q.mem && a !in p.mem ==> Page(a) in q.dirty
    ensures Follows(ck, p, q)
  {
    forall a | a in q.mem && a in ck.mem && a !in p.mem
      ensures Covered(ck, q, a)
    {
      UnmappedWasHeap(ck, p, a);
    }
  }

  lemma BreakSurvives(ck: seq<Region>, p: Proc, x: nat)
    requires WellFormed(p) && Survives(ck, p.regions) && BrkAllowed(p.regions, x)
    ensures Survives(ck, Resized(p.regions, x))
  {
    BrkMembers(p.regions, x, p.brk);
  }

  lemma BreakFollows(ck: Proc, p: Proc, x: nat)
    requires WellFormed(ck) && Shaped(ck, p)
    ensures Follows(ck, p, Brk(p, x))
  {
    if !BrkAllowed(p.regions, x) {
      CommitNothing(p);
    } else {
      BrkWellFormed(p, x);
      BrkBytes(p, x);
      BreakSurvives(ck.regions, p, x);
      GrownFollows(ck, p, Brk(p, x));
    }
  }

  lemma MapFollows(ck: Proc, p: Proc, at: nat, r: Region, content: seq<Bytes.Byte>)
    requires WellFormed(ck) && Shaped(ck, p) && Allowed(ck.regions, p, Map(at, r, content))
    ensures Follows(ck, p, Apply(p, Map(at, r, content)))
  {
    var q := Apply(p, Map(at, r, content));
    MapEffect(p, at, r, content);
    GrownFollows(ck, p, q);
  }

  lemma UnmapFollows(ck: Proc, p: Proc, lo: nat, hi: nat)
    requires WellFormed(ck) && Shaped(ck, p) && Allowed(ck.regions, p, Unmap(lo, hi))
    ensures Follows(ck, p, Munmap(p, lo, hi))
  {
    var q := Munmap(p, lo, hi);
    MunmapIs(p, lo, hi);
    MunmapWellFormed(p, lo, hi);
    MunmapHeap(p.regions, p.brk, lo, hi);
    forall c | c in ck.regions && c.name != HEAP
      ensures c in q.regions
    {
      CutKeeps(p.regions, lo, hi, c);
    }
    CutPieces(p.regions, lo, hi);
    forall r | r in q.regions && (r.name == HEAP || KernelOwned(r.name))
      ensures Continues(ck.regions, r)
    {
      var o :| o in p.regions && PieceOf(r, o, lo, hi);
    }
  }

  lemma OpFollows(ck: Proc, p: Proc, op: UserOp)
    requires WellFormed(ck) && Shaped(ck, p) && Allowed(ck.regions, p, op)
    ensures Follows(ck, p, Apply(p, op))
  {
    match op
    case Write(a, b) => WriteFollows(ck, p, a, b);
    case SetRegs(tid, regs) =>
    case MoveBreak(x) => BreakFollows(ck, p, x);
    case Map(at, r, content) => MapFollows(ck, p, at, r, content);
    case Unmap(lo, hi) => UnmapFollows(ck, p, lo, hi);
  }

  /** Whatever the user does within bounds, the difference to the checkpoint stays tracked. */
  lemma OpTracks(ck: Proc, p: Proc, op: UserOp)
    requires WellFormed(ck) && Tracks(ck, p) && Allowed(ck.regions, p, op)
    ensures Tracks(ck, Apply(p, op))
  {
    hide Shaped, Allowed, Apply;
    OpFollows(ck, p, op);
    FollowsTracks(ck, p, Apply(p, op));
  }

  // ----- Runs of user code -----

  function ApplyAll(p: Proc, ops: seq<UserOp>): Proc
    decreases ops
  {
    if ops == [] then p else ApplyAll(Apply(p, ops[0]), ops[1..])
  }

  ghost predicate AllAllowed(ck: seq<Region>, p: Proc, ops: seq<UserOp>)
    decreases ops
  {
    ops == [] || (Allowed(ck, p, ops[0]) && AllAllowed(ck, Apply(p, ops[0]), ops[1..]))
  }

  lemma {:induction false} RunTracks(ck: Proc, p: Proc, ops: seq<UserOp>)
    requires WellFormed(ck) && Tracks(ck, p) && AllAllowed(ck.regions, p, ops)
    ensures Tracks(ck, ApplyAll(p, ops))
    decreases ops
  {
    if ops != [] {
      OpTracks(ck, p, ops[0]);
      RunTracks(ck, Apply(p, ops[0]), ops[1..]);
    }
  }
}

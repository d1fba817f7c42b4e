/**
 Restores that return an error, and what a later restore can make of it. A failure can leave a
 byte of planted code behind; everything else stays as it was, or is covered by a dirty bit.
 */
module FailedRestores {
  import opened Results
  import opened Kernel
  import opened SoftDirty
  import opened Injection
  import opened Restoration
  import opened FullRestore

  lemma EmptyOrInhabited(s: set<int>)
    ensures s == {} || exists k :: k in s
  {
    if forall k :: k !in s {
      assert s == {};
    }
  }

  /** The second byte of the planted instruction would change the checkpoint at address a, and no
      restore writes it back: it is not writable. */
  ghost predicate CodeOf(ck: Proc, a: int) {
    a in ck.mem && ck.mem[a] != SYSCALL_CODE[1] && !WritableAt(ck.regions, a)
  }

  ghost predicate LosesCode(ck: Proc, torn: Option<int>) {
    torn.Some? && CodeOf(ck, torn.value)
  }

  ghost function TornOff(ck: Proc, torn: Option<int>): set<int> {
    if LosesCode(ck, torn) then {torn.value} else {}
  }

  /** q came from p by steps after which every byte is as it was, or covered, but for one that may
      have been torn. */
  ghost predicate FollowsBut(ck: Proc, p: Proc, q: Proc, torn: Option<int>) {
    && Shaped(ck, q) && p.dirty <= q.dirty
    && (forall a :: a in q.mem && a in ck.mem && torn != Some(a) ==>
          (a in p.mem && q.mem[a] == p.mem[a]) || Covered(ck, q, a))
    && (torn.Some? ==> torn.value in q.mem && q.mem[torn.value] == SYSCALL_CODE[1] && Page(torn.value) in q.dirty)
  }

  /** The bytes that differ and that no restore would write back are those in lost. */
  ghost predicate TracksBut(ck: Proc, p: Proc, lost: set<int>) {
    && Shaped(ck, p)
    && (forall a :: a in lost ==> CodeOf(ck, a))
    && forall a :: a in lost <==> Differs(ck, p, a) && !Covered(ck, p, a)
  }

  lemma NothingTorn(ck: Proc, p: Proc, q: Proc)
    ensures Follows(ck, p, q) ==> FollowsBut(ck, p, q, None)
  {
    hide Shaped, Covered;
  }

  lemma FollowsOnBut(ck: Proc, p: Proc, r: Proc, q: Proc, torn: Option<int>)
    requires Follows(ck, p, r) && FollowsBut(ck, r, q, torn)
    ensures FollowsBut(ck, p, q, torn)
  {
    hide Shaped, WritableAt;
    assert forall a :: Covered(ck, r, a) ==> Covered(ck, q, a);
  }

  lemma NothingLost(ck: Proc, p: Proc)
    ensures Tracks(ck, p) <==> TracksBut(ck, p, {})
  {
    hide Shaped, Covered;
  }

  /** Code that is lost stays lost, and nothing else gets lost than what is torn. */
  lemma TracksOn(ck: Proc, p: Proc, q: Proc, torn: Option<int>, lost: set<int>)
    requires WellFormed(ck) && TracksBut(ck, p, lost) && FollowsBut(ck, p, q, torn)
    ensures TracksBut(ck, q, lost + TornOff(ck, torn))
  {
    forall a
      ensures a in lost + TornOff(ck, torn) <==> Differs(ck, q, a) && !Covered(ck, q, a)
    {
      if torn != Some(a) {
        OneByteOn(ck, p, q, torn, lost, a);
      }
    }
  }

  lemma OneByteOn(ck: Proc, p: Proc, q: Proc, torn: Option<int>, lost: set<int>, a: int)
    requires WellFormed(ck) && TracksBut(ck, p, lost) && FollowsBut(ck, p, q, torn) && torn != Some(a)
    ensures a in lost <==> Differs(ck, q, a) && !Covered(ck, q, a)
  {
    if a in ck.mem && !WritableAt(ck.regions, a) && a !in q.mem {
      UnmappedWasHeap(ck, q, a);
    }
    hide Shaped, WritableAt, WellFormed;
    assert a in lost ==> CodeOf(ck, a);
  }

  lemma TracksIffNothingLost(ck: Proc, p: Proc, lost: set<int>)
    requires TracksBut(ck, p, lost)
    ensures Tracks(ck, p) <==> lost == {}
  {
    hide Shaped, Covered, Differs;
    EmptyOrInhabited(lost);
    if a :| a in lost {
      assert Differs(ck, p, a) && !Covered(ck, p, a);
    }
  }

  lemma TracksUnlessTorn(ck: Proc, p: Proc, q: Proc, torn: Option<int>)
    requires WellFormed(ck) && Tracks(ck, p) && FollowsBut(ck, p, q, torn)
    ensures Tracks(ck, q) <==> !LosesCode(ck, torn)
  {
    hide WellFormed, Tracks, FollowsBut, TracksBut, CodeOf;
    NothingLost(ck, p);
    TracksOn(ck, p, q, torn, {});
    TracksIffNothingLost(ck, q, {} + TornOff(ck, torn));
  }

  // ----- One call -----

  /** e is the effect of the call, q is e with the registers of the call and perhaps a torn byte. */
  lemma AbandonedFollows(ck: Proc, p: Proc, e: Proc, q: Proc, torn: Option<int>)
    requires Shaped(ck, p) && Follows(ck, p, e)
    requires q == e.(mem := q.mem, dirty := q.dirty, regs := q.regs) && e.dirty <= q.dirty && q.regs.Keys == p.regs.Keys
    requires torn.Some? ==> torn.value in e.mem && Page(torn.value) in q.dirty
    requires q.mem == if torn.Some? then e.mem[torn.value := SYSCALL_CODE[1]] else e.mem
    ensures FollowsBut(ck, p, q, torn)
  {
    SameKeysSameShape(ck, p, e, q);
    hide Shaped, WritableAt;
    assert forall a :: Covered(ck, e, a) ==> Covered(ck, q, a);
  }

  lemma SameKeysSameShape(ck: Proc, p: Proc, e: Proc, q: Proc)
    requires Shaped(ck, p) && Shaped(ck, e) && q.regions == e.regions && q.brk == e.brk && q.regs.Keys == p.regs.Keys
    requires q.mem.Keys == e.mem.Keys
    ensures Shaped(ck, q)
  {
    assert forall a :: a in q.mem <==> a in e.mem;
  }

  /** A call that fails leaves its effect, or nothing at all, and perhaps a torn byte. */
  lemma FailedCallFollows(ck: Proc, p: Proc, tid: int, number: int, arg1: nat, arg2: nat, q: Proc)
    requires Shaped(ck, p) && Follows(ck, p, Effect(p, number, arg1, arg2))
    requires CallFails(p, tid, number, arg1, arg2, q)
    ensures FollowsBut(ck, p, q, TornAt(p, tid, number, arg1, arg2))
  {
    hide Effect, Abandoned, Injectable, Follows, FollowsBut;
    if CodeMapped(p, tid) {
      AbandonedIs(p, tid, number, arg1, arg2);
      AbandonedFollows(ck, p, Effect(p, number, arg1, arg2), q, TornAt(p, tid, number, arg1, arg2));
    } else {
      FollowsItself(ck, p);
      NothingTorn(ck, p, p);
    }
  }

  /** Exactly when a failed call keeps what a later restore relies on: unless it takes away the first
      of the two bytes of its code and leaves the second, where the checkpoint has other code that is
      not writable. */
  lemma FailedCallTracksIff(ck: Proc, p: Proc, tid: int, number: int, arg1: nat, arg2: nat, q: Proc)
    requires WellFormed(ck) && Tracks(ck, p) && Follows(ck, p, Effect(p, number, arg1, arg2))
    requires CallFails(p, tid, number, arg1, arg2, q)
    ensures Tracks(ck, q) <==> !(Torn(p, tid, number, arg1, arg2) && CodeOf(ck, p.regs[tid].rip + 1))
  {
    hide WellFormed, Shaped, Effect, CallFails, Torn, FollowsBut, CodeOf;
    FailedCallFollows(ck, p, tid, number, arg1, arg2, q);
    TracksUnlessTorn(ck, p, q, TornAt(p, tid, number, arg1, arg2));
  }

  // ----- The failures of a restore -----

  lemma FailedBreakFollows(ck: Proc, s: Snapshot, p: Proc, q: Proc, torn: Option<int>)
    requires WellFormed(ck) && Shaped(ck, p) && BreakFails(s, p, q, torn)
    ensures FollowsBut(ck, p, q, torn)
  {
    hide Returned, TornAt, CallFails;
    var end := Named(s.memory, HEAP).value.region.end;
    BreakFollows(ck, p, end);
    assert Effect(p, SYS_BRK, end, 0) == Brk(p, end);
    hide Effect, Brk, Shaped, Follows, FollowsBut;
    if tid :| tid in s.registers && CallFails(p, tid, SYS_BRK, end, 0, q) && torn == TornAt(p, tid, SYS_BRK, end, 0) {
      FailedCallFollows(ck, p, tid, SYS_BRK, end, 0, q);
    } else {
      UpToDirtyFollows(ck, p, Brk(p, end), q);
      NothingTorn(ck, p, q);
    }
  }

  /** The next unmapping, in the process r that the first i unmappings led to. */
  lemma NextUnmapFollows(ck: Proc, s: Snapshot, p: Proc, news: seq<Region>, i: nat, r: Proc)
    requires WellFormed(ck) && SnapshotOf(ck, s) && Shaped(ck, p)
    requires news == NewLocations(s.memory, Visible(p.regions)) && i < |news| && news[i].start <= news[i].end
    requires SameUpToDirty(Unmapped(p, news, i), r)
    ensures Follows(ck, p, r) && Follows(ck, r, Effect(r, SYS_MUNMAP, news[i].start, news[i].end - news[i].start))
  {
    hide *;
    var e := Unmapped(p, news, i);
    UnmappedFollows(ck, s, p, i);
    UpToDirtyFollows(ck, p, e, r);
    FollowsShape(ck, p, r);
    ShapedIsOrdered(ck, p);
    NewDistinct(s, p.regions, i);
    SameRegions(e, r);
    assert news[i] in e.regions;
    UnmapOne(ck, s, p, r, news[i]);
    UnmapEffect(r, news[i]);
  }

  lemma ShapedIsOrdered(ck: Proc, p: Proc)
    requires Shaped(ck, p)
    ensures Ordered(p.regions)
  {
  }

  lemma SameRegions(p: Proc, q: Proc)
    requires SameUpToDirty(p, q)
    ensures q.regions == p.regions
  {
  }

  lemma UnmapEffect(p: Proc, r: Region)
    requires r.start <= r.end
    ensures Effect(p, SYS_MUNMAP, r.start, r.end - r.start) == Munmap(p, r.start, r.end)
  {
  }

  lemma FailedUnmapFollows(ck: Proc, s: Snapshot, p: Proc, q: Proc, torn: Option<int>)
    requires WellFormed(ck) && SnapshotOf(ck, s) && Shaped(ck, p) && UnmapFails(s, p, q, torn)
    ensures FollowsBut(ck, p, q, torn)
  {
    hide NewLocations, Visible, Unmapped, SnapshotOf, WellFormed, Effect, CallFails, TornAt, SameUpToDirty, FollowsBut;
    var i: nat, r, tid :| UnmapFailsAt(s, p, i, r, tid, q, torn);
    var news := NewLocations(s.memory, Visible(p.regions));
    NextUnmapFollows(ck, s, p, news, i, r);
    FollowsShape(ck, p, r);
    FailedCallFollows(ck, r, tid, SYS_MUNMAP, news[i].start, news[i].end - news[i].start, q);
    FollowsOnBut(ck, p, r, q, torn);
  }

  /** Wherever a restore fails, every byte is as it was or covered, but for a torn one. */
  lemma FailedRestoreFollows(ck: Proc, s: Snapshot, p: Proc, q: Proc, torn: Option<int>)
    requires WellFormed(ck) && SnapshotOf(ck, s) && Shaped(ck, p) && RestoreFails(s, p, q, torn)
    ensures FollowsBut(ck, p, q, torn)
  {
    hide WellFormed, SnapshotOf, Shaped, BreakFails, UnmapFails, BreakPhase, Follows, FollowsBut;
    if BreakFails(s, p, q, torn) {
      FailedBreakFollows(ck, s, p, q, torn);
    } else if UnmapFailsAfterBreak(s, p, q, torn) {
      var p1, b :| BreakPhase(s, p, p1, b) && UnmapFails(s, p1, q, torn);
      AfterBreak(ck, s, p, p1, b);
      FollowsShape(ck, p, p1);
      FailedUnmapFollows(ck, s, p1, q, torn);
      FollowsOnBut(ck, p, p1, q, torn);
    } else {
      FollowsItself(ck, p);
      NothingTorn(ck, p, p);
    }
  }

  /** Exactly when a failed restore keeps what the next one relies on. */
  lemma FailedRestoreTracksIff(ck: Proc, s: Snapshot, p: Proc, q: Proc, torn: Option<int>)
    requires WellFormed(ck) && SnapshotOf(ck, s) && Tracks(ck, p) && RestoreFails(s, p, q, torn)
    ensures Tracks(ck, q) <==> !LosesCode(ck, torn)
  {
    hide WellFormed, SnapshotOf, RestoreFails, FollowsBut, CodeOf;
    FailedRestoreFollows(ck, s, p, q, torn);
    TracksUnlessTorn(ck, p, q, torn);
  }

  // ----- Restores that do not return -----

  /** A process that still has the threads of the checkpoint is never left waiting at its registers. */
  lemma NoRestoreHangs(ck: Proc, s: Snapshot, p: Proc, q: Proc)
    requires WellFormed(ck) && SnapshotOf(ck, s) && Shaped(ck, p)
    ensures !RestoreHangs(s, p, q)
  {
    hide BreakPhase, UnmapPhase, FixupPhase;
    forall p1, p2, p3, p4, b, u, ops | FourPhases(s, p, p1, p2, p3, p4, b, u, ops)
      ensures !RegistersStuck(s, p4, q)
    {
      BeforePages(ck, s, p, p1, p2, p3, b, u, ops);
    }
  }
}

/** Any mix of user code, restores and failed restores after one checkpoint. */
module Runs {
  import opened Results
  import opened Kernel
  import opened Layout
  import opened SoftDirty
  import opened MemoryPages
  import opened Injection
  import opened Restoration
  import opened FullRestore
  import opened FailedRestores

  datatype Event = User(op: UserOp) | Restored | Failed(torn: Option<int>)

  ghost predicate Moves(ck: Proc, s: Snapshot, p: Proc, e: Event, q: Proc) {
    match e
    case User(op) => Allowed(ck.regions, p, op) && q == Apply(p, op)
    case Restored => RestoreStep(s, p, q)
    case Failed(torn) => RestoreFails(s, p, q, torn)
  }

  /** One checkpoint, then any mix of user code and restores, successful or not. */
  ghost predicate IsRun(ck: Proc, s: Snapshot, states: seq<Proc>, events: seq<Event>) {
    && |states| == |events| + 1
    && states[0] == ClearRefs(ck)
    && forall i :: 0 <= i < |events| ==> Moves(ck, s, states[i], events[i], states[i + 1])
  }

  /** What an event tears. */
  function Tears(e: Event): Option<int> {
    if e.Failed? then e.torn else None
  }

  /** The code that is lost in the course of the events. */
  ghost function LostIn(ck: Proc, events: seq<Event>): set<int> {
    if events == [] then {}
    else LostIn(ck, events[..|events| - 1]) + TornOff(ck, Tears(events[|events| - 1]))
  }

  lemma LostInNext(ck: Proc, events: seq<Event>, i: nat)
    requires i < |events|
    ensures LostIn(ck, events[..i + 1]) == LostIn(ck, events[..i]) + TornOff(ck, Tears(events[i]))
  {
    assert events[..i + 1][..i] == events[..i];
  }

  lemma {:induction false} LostInIs(ck: Proc, events: seq<Event>, a: int)
    ensures a in LostIn(ck, events) <==> exists j :: 0 <= j < |events| && Tears(events[j]) == Some(a) && CodeOf(ck, a)
    decreases |events|
  {
    hide CodeOf;
    if events != [] {
      var n := |events| - 1;
      LostInIs(ck, events[..n], a);
      if j :| 0 <= j < |events| && Tears(events[j]) == Some(a) && CodeOf(ck, a) {
        assert j == n || events[..n][j] == events[j];
      }
      if j :| 0 <= j < n && Tears(events[..n][j]) == Some(a) && CodeOf(ck, a) {
        assert Tears(events[j]) == Some(a);
      }
      assert a in TornOff(ck, Tears(events[n])) <==> Tears(events[n]) == Some(a) && CodeOf(ck, a);
    }
  }

  lemma NothingLostIff(ck: Proc, events: seq<Event>, i: nat)
    requires i <= |events|
    ensures LostIn(ck, events[..i]) == {} <==> forall j :: 0 <= j < i ==> !LosesCode(ck, Tears(events[j]))
  {
    var before := events[..i];
    hide LostIn, CodeOf, Tears;
    EmptyOrInhabited(LostIn(ck, before));
    if a :| a in LostIn(ck, before) {
      LostInIs(ck, before, a);
      var j :| 0 <= j < |before| && Tears(before[j]) == Some(a) && CodeOf(ck, a);
      assert LosesCode(ck, Tears(events[j]));
    }
    if j :| 0 <= j < i && LosesCode(ck, Tears(events[j])) {
      LostInIs(ck, before, Tears(events[j]).value);
      assert before[j] == events[j];
    }
  }

  lemma MoveFollows(ck: Proc, s: Snapshot, p: Proc, e: Event, q: Proc)
    requires WellFormed(ck) && SnapshotOf(ck, s) && Shaped(ck, p) && Moves(ck, s, p, e, q)
    ensures FollowsBut(ck, p, q, Tears(e))
  {
    hide WellFormed, SnapshotOf, RestoreStep, RestoreFails, Allowed, Shaped, Apply, FollowsBut, Follows;
    match e
    case User(op) =>
      OpFollows(ck, p, op);
      NothingTorn(ck, p, q);
    case Restored =>
      RestoreFollows(ck, s, p, q);
      NothingTorn(ck, p, q);
    case Failed(torn) => FailedRestoreFollows(ck, s, p, q, torn);
  }

  /** In every state of every run, the bytes that no restore would write back are those of the code
      that was torn before. */
  lemma {:induction false} RunTracksBut(ck: Proc, s: Snapshot, states: seq<Proc>, events: seq<Event>, i: nat)
    requires WellFormed(ck) && SnapshotOf(ck, s) && IsRun(ck, s, states, events) && i < |states|
    ensures TracksBut(ck, states[i], LostIn(ck, events[..i]))
  {
    hide WellFormed, SnapshotOf, Moves, FollowsBut, Tracks, TornOff;
    if i == 0 {
      TracksFromCheckpoint(ck);
      NothingLost(ck, states[0]);
    } else {
      RunTracksBut(ck, s, states, events, i - 1);
      assert Moves(ck, s, states[i - 1], events[i - 1], states[i - 1 + 1]);
      MoveFollows(ck, s, states[i - 1], events[i - 1], states[i]);
      hide TracksBut, LostIn;
      TracksOn(ck, states[i - 1], states[i], Tears(events[i - 1]), LostIn(ck, events[..i - 1]));
      LostInNext(ck, events, i - 1);
    }
  }

  /** Differences stay tracked exactly as long as no restore has torn code for good. */
  lemma RunKeepsTracking(ck: Proc, s: Snapshot, states: seq<Proc>, events: seq<Event>, i: nat)
    requires WellFormed(ck) && SnapshotOf(ck, s) && IsRun(ck, s, states, events) && i < |states|
    ensures Shaped(ck, states[i])
    ensures Tracks(ck, states[i]) <==> forall j :: 0 <= j < i ==> !LosesCode(ck, Tears(events[j]))
  {
    RunTracksBut(ck, s, states, events, i);
    TracksIffNothingLost(ck, states[i], LostIn(ck, events[..i]));
    NothingLostIff(ck, events, i);
  }

  /** In every run every restore that returns without error puts layout and registers back, and all
      bytes but those of code that was torn before; so it puts all bytes back exactly when no failed
      restore before it has torn code for good. */
  lemma EveryRestoreOfEveryRun(ck: Proc, s: Snapshot, states: seq<Proc>, events: seq<Event>, i: nat)
    requires WellFormed(ck) && SnapshotOf(ck, s) && IsRun(ck, s, states, events)
    requires i < |events| && events[i] == Restored
    ensures states[i + 1].regions == ck.regions
    ensures states[i + 1].regs == ck.regs
    ensures forall a :: Differs(ck, states[i + 1], a) <==> a in LostIn(ck, events[..i])
    ensures states[i + 1].mem == ck.mem <==> forall j :: 0 <= j < i ==> !LosesCode(ck, Tears(events[j]))
  {
    hide *;
    RestoredInRun(ck, s, states, events, i);
    RunTracksBut(ck, s, states, events, i);
    RunTracksBut(ck, s, states, events, i + 1);
    LostInNext(ck, events, i);
    var before := events[..i];
    assert LostIn(ck, events[..i + 1]) == LostIn(ck, before);
    RestoreInRun(ck, s, states[i], states[i + 1], LostIn(ck, before));
    NothingLostIff(ck, events, i);
  }

  lemma RestoredInRun(ck: Proc, s: Snapshot, states: seq<Proc>, events: seq<Event>, i: nat)
    requires IsRun(ck, s, states, events) && i < |events| && events[i] == Restored
    ensures i + 1 < |states| && RestoreStep(s, states[i], states[i + 1]) && TornOff(ck, Tears(events[i])) == {}
  {
    hide RestoreStep;
    assert Moves(ck, s, states[i], events[i], states[i + 1]);
  }

  lemma RestoreInRun(ck: Proc, s: Snapshot, p: Proc, q: Proc, lost: set<int>)
    requires WellFormed(ck) && SnapshotOf(ck, s) && RestoreStep(s, p, q)
    requires TracksBut(ck, p, lost) && TracksBut(ck, q, lost)
    ensures q.regions == ck.regions && q.regs == ck.regs
    ensures forall a :: Differs(ck, q, a) <==> a in lost
    ensures q.mem == ck.mem <==> lost == {}
  {
    hide WellFormed, SnapshotOf, RestoreStep, CodeOf, Shaped, Differs, Covered;
    RestoreBringsBytesBackIff(ck, s, p, q);
    RestoreFollows(ck, s, p, q);
    AllBytesBack(ck, q, lost);
  }

  lemma AllBytesBack(ck: Proc, q: Proc, lost: set<int>)
    requires WellFormed(ck) && Shaped(ck, q) && q.regions == ck.regions
    requires forall a :: Differs(ck, q, a) <==> a in lost
    ensures q.mem == ck.mem <==> lost == {}
  {
    ShapedSameKeys(ck, q);
    NothingDiffers(ck, q);
    hide WellFormed, Shaped;
    EmptyOrInhabited(lost);
    if a :| a in lost {
      assert Differs(ck, q, a);
    }
  }

  /** Torn code is lost: it differs in every later state, whatever the user's code and whatever
      restores do. */
  lemma TornCodeIsLost(ck: Proc, s: Snapshot, states: seq<Proc>, events: seq<Event>, j: nat, i: nat, a: int)
    requires WellFormed(ck) && SnapshotOf(ck, s) && IsRun(ck, s, states, events)
    requires j < i < |states| && events[j] == Failed(Some(a)) && CodeOf(ck, a)
    ensures Differs(ck, states[i], a)
  {
    RunTracksBut(ck, s, states, events, i);
    LostInIs(ck, events[..i], a);
    assert events[..i][j] == events[j];
  }

  // ----- A run that loses code -----

  const NEW_PAGE: Region := Region(Path(""), 4096, 8192, 0, true, true, true, false, 0, 0, 0)
  const CODE_PAGE: Region := Region(Path(""), 8192, 12288, 0, true, false, true, false, 0, 0, 0)
  const HEAP_PAGE: Region := Region(HEAP, 12288, 16384, 0, true, true, false, false, 0, 0, 0)

  /** A page of code, and behind it a page of heap. */
  function CodeAndHeap(regs: Regs): Proc {
    Proc([CODE_PAGE, HEAP_PAGE], 16384, Fresh(8192, Zeros(8192)), {}, map[1 := regs])
  }

  function CodeSnapshot(regs: Regs): Snapshot {
    Snapshot([Memory(CODE_PAGE, []), Memory(HEAP_PAGE, Zeros(4096))], map[1 := regs])
  }

  /** It maps a page in front of its code and is stopped with its program counter on the last byte
      of that page. The restore unmaps the page, by a call that is planted half on it. */
  function StraddleEvents(regs: Regs): seq<Event> {
    [User(Map(0, NEW_PAGE, Zeros(4096))), User(SetRegs(1, regs.(rip := 8191))), Failed(Some(8192)), Restored]
  }

  function PageMapped(regs: Regs): Proc {
    Apply(ClearRefs(CodeAndHeap(regs)), Map(0, NEW_PAGE, Zeros(4096)))
  }

  function Straddling(regs: Regs): Proc {
    Apply(PageMapped(regs), SetRegs(1, regs.(rip := 8191)))
  }

  lemma VisibleNext(rs: seq<Region>, r: Region)
    requires !KernelOwned(r.name)
    ensures Visible(rs + [r]) == Visible(rs) + [r]
  {
    assert (rs + [r])[..|rs|] == rs;
  }

  lemma {:induction false} VisibleAll(rs: seq<Region>)
    requires forall i :: 0 <= i < |rs| ==> !KernelOwned(rs[i].name)
    ensures Visible(rs) == rs
    decreases |rs|
  {
    if rs != [] {
      var n := |rs| - 1;
      VisibleAll(rs[..n]);
      VisibleNext(rs[..n], rs[n]);
      hide Visible;
      assert rs[..n] + [rs[n]] == rs;
    }
  }

  lemma CodeAndHeapWellFormed(regs: Regs)
    ensures WellFormed(CodeAndHeap(regs))
  {
    var rs := [CODE_PAGE, HEAP_PAGE];
    HeapIs(rs, HEAP_PAGE);
    assert AlignUp(16384) == 16384;
    forall a
      ensures Mapped(rs, a) <==> 8192 <= a < 16384
    {
      if 8192 <= a < 12288 {
        assert CODE_PAGE in rs && CODE_PAGE.Contains(a);
      } else if 12288 <= a < 16384 {
        assert HEAP_PAGE in rs && HEAP_PAGE.Contains(a);
      }
    }
  }

  lemma CodeSnapshotIsOne(regs: Regs)
    ensures SnapshotOf(CodeAndHeap(regs), CodeSnapshot(regs))
  {
    HeapIsCaptured(regs);
    CodeIsCaptured(regs);
    VisibleAll([CODE_PAGE, HEAP_PAGE]);
    hide Visible, Captures, SnapshotOf, Zeros, Fresh;
    SnapshotOfTwo(CodeAndHeap(regs), Memory(CODE_PAGE, []), Memory(HEAP_PAGE, Zeros(4096)));
  }

  lemma SnapshotOfTwo(p: Proc, m: Memory, n: Memory)
    requires Visible(p.regions) == [m.region, n.region] && Captures(p, m) && Captures(p, n)
    ensures SnapshotOf(p, Snapshot([m, n], p.regs))
  {
    hide Visible, Captures;
  }

  lemma CodeIsCaptured(regs: Regs)
    ensures Captures(CodeAndHeap(regs), Memory(CODE_PAGE, []))
  {
  }

  lemma HeapIsCaptured(regs: Regs)
    ensures Captures(CodeAndHeap(regs), Memory(HEAP_PAGE, Zeros(4096)))
  {
    forall k | 0 <= k < 4096
      ensures HasByte(CodeAndHeap(regs).mem, 12288 + k, Zeros(4096)[k])
    {
      assert CodeAndHeap(regs).mem[12288 + k] == Zeros(8192)[4096 + k];
    }
  }

  lemma ZeroCode(regs: Regs)
    ensures CodeOf(CodeAndHeap(regs), 8192)
  {
    forall r | r in [CODE_PAGE, HEAP_PAGE] && r.Contains(8192)
      ensures r == CODE_PAGE
    {
    }
  }

  lemma StraddlingIs(regs: Regs)
    ensures var p := Straddling(regs);
            && p.regions == [NEW_PAGE, CODE_PAGE, HEAP_PAGE] && p.brk == 16384 && p.regs == map[1 := regs.(rip := 8191)]
            && p.dirty == {1} && (forall a :: a in p.mem <==> 4096 <= a < 16384)
  {
    hide Zeros;
    assert Pages(4096, 8192) == {1};
    assert [CODE_PAGE, HEAP_PAGE][..0] + [NEW_PAGE] + [CODE_PAGE, HEAP_PAGE][0..] == [NEW_PAGE, CODE_PAGE, HEAP_PAGE];
    assert map[1 := regs][1 := regs.(rip := 8191)] == map[1 := regs.(rip := 8191)];
  }

  lemma PageIsNew(regs: Regs)
    ensures NewLocations(CodeSnapshot(regs).memory, [NEW_PAGE, CODE_PAGE, HEAP_PAGE]) == [NEW_PAGE]
  {
    var ms, rs := CodeSnapshot(regs).memory, [NEW_PAGE, CODE_PAGE, HEAP_PAGE];
    assert ms[0] in ms && ms[1] in ms;
    assert Existed(ms, HEAP_PAGE) && Existed(ms, CODE_PAGE) && !Existed(ms, NEW_PAGE);
    hide Existed, Zeros;
    assert rs[..2] == [NEW_PAGE, CODE_PAGE] && rs[..2][..1] == [NEW_PAGE] && [NEW_PAGE][..0] == [];
    assert NewLocations(ms, [NEW_PAGE]) == [NEW_PAGE];
    assert NewLocations(ms, [NEW_PAGE, CODE_PAGE]) == [NEW_PAGE] by { assert [NEW_PAGE, CODE_PAGE][..1] == [NEW_PAGE]; }
  }

  lemma SavedHeap(regs: Regs)
    ensures Named(CodeSnapshot(regs).memory, HEAP) == Some(Memory(HEAP_PAGE, Zeros(4096)))
  {
    hide Zeros;
    var ms := CodeSnapshot(regs).memory;
    assert ms[1..][0] == ms[1];
  }

  lemma HeapInPlace(regs: Regs, p: Proc)
    requires p.regions == [NEW_PAGE, CODE_PAGE, HEAP_PAGE] || p.regions == [CODE_PAGE, HEAP_PAGE]
    ensures BreakPhase(CodeSnapshot(regs), p, p, false) && Visible(p.regions) == p.regions
  {
    VisibleAll(p.regions);
    SavedHeap(regs);
    LastIsHeap(p.regions);
    hide Visible, CodeSnapshot, Zeros, LastNamed, BreakPhase;
    BreakInPlace(CodeSnapshot(regs), p, Memory(HEAP_PAGE, Zeros(4096)), HEAP_PAGE);
  }

  lemma LastIsHeap(rs: seq<Region>)
    requires rs != [] && rs[|rs| - 1] == HEAP_PAGE
    ensures LastNamed(rs, HEAP) == Some(HEAP_PAGE)
  {
  }

  lemma BreakInPlace(s: Snapshot, p: Proc, m: Memory, r: Region)
    requires Named(s.memory, HEAP) == Some(m) && LastNamed(Visible(p.regions), HEAP) == Some(r) && m.region.end == r.end
    ensures BreakPhase(s, p, p, false)
  {
    hide Named, LastNamed, Visible;
  }

  /** What is left when the call is given up. */
  lemma StraddlingFails(regs: Regs)
    ensures var p := Straddling(regs);
            && CodeMapped(p, 1) && !Injectable(p, 1, SYS_MUNMAP, 4096, 4096)
            && TornAt(p, 1, SYS_MUNMAP, 4096, 4096) == Some(8192)
            && var q := Abandoned(p, 1, SYS_MUNMAP, 4096, 4096);
               && q.regions == [CODE_PAGE, HEAP_PAGE] && q.brk == 16384 && q.dirty == {1, 2} && q.regs.Keys == {1}
  {
    var p := Straddling(regs);
    StraddlingIs(regs);
    hide Straddling, Abandoned, Mapped, Ordered;
    MunmapIs(p, 4096, 8192);
    assert Effect(p, SYS_MUNMAP, 4096, 4096) == Munmap(p, 4096, 8192);
    hide Effect, Munmap;
    StraddlingConsistent(regs);
    CutAway();
    AbandonedIs(p, 1, SYS_MUNMAP, 4096, 4096);
  }

  lemma CutAway()
    ensures CutAll([NEW_PAGE, CODE_PAGE, HEAP_PAGE], 4096, 8192) == [CODE_PAGE, HEAP_PAGE]
  {
    assert CutAll([HEAP_PAGE], 4096, 8192) == [HEAP_PAGE];
    assert [CODE_PAGE, HEAP_PAGE][1..] == [HEAP_PAGE];
    assert CutAll([CODE_PAGE, HEAP_PAGE], 4096, 8192) == [CODE_PAGE, HEAP_PAGE];
    assert [NEW_PAGE, CODE_PAGE, HEAP_PAGE][1..] == [CODE_PAGE, HEAP_PAGE];
  }

  lemma StraddlingConsistent(regs: Regs)
    ensures Consistent(Straddling(regs))
  {
    var ck := CodeAndHeap(regs);
    CodeAndHeapWellFormed(regs);
    TracksFromCheckpoint(ck);
    PageIsAllowed(regs);
    hide CodeAndHeap, WellFormed, Allowed, Apply;
    OpTracks(ck, ClearRefs(ck), Map(0, NEW_PAGE, Zeros(4096)));
    assert Consistent(PageMapped(regs));
  }

  lemma PageIsAllowed(regs: Regs)
    ensures Allowed(CodeAndHeap(regs).regions, ClearRefs(CodeAndHeap(regs)), Map(0, NEW_PAGE, Zeros(4096)))
    ensures 1 in PageMapped(regs).regs
  {
  }

  /** The restore fails where it unmaps the page. */
  lemma FirstRestoreFails(regs: Regs)
    ensures RestoreFails(CodeSnapshot(regs), Straddling(regs),
              Abandoned(Straddling(regs), 1, SYS_MUNMAP, 4096, 4096), Some(8192))
  {
    hide Straddling, Abandoned, TornAt, BreakPhase, Visible, NewLocations, Munmap, CodeMapped, Injectable, Zeros;
    var s, p := CodeSnapshot(regs), Straddling(regs);
    StraddlingIs(regs);
    StraddlingFails(regs);
    PageIsNew(regs);
    HeapInPlace(regs, p);
    var q := Abandoned(p, 1, SYS_MUNMAP, 4096, 4096);
    assert CallFails(p, 1, SYS_MUNMAP, 4096, 4096, q);
    hide CallFails;
    assert Unmapped(p, [NEW_PAGE], 0) == p;
    assert UnmapFailsAt(s, p, 0, p, 1, q, Some(8192));
    hide UnmapFailsAt;
    assert UnmapFails(s, p, q, Some(8192));
  }

  /** The next one finds everything in place, and puts the registers back. */
  lemma NextRestoreSucceeds(regs: Regs, p: Proc)
    requires p.regions == [CODE_PAGE, HEAP_PAGE] && p.dirty == {1, 2} && p.regs.Keys == {1}
    ensures RestoreStep(CodeSnapshot(regs), p, p.(regs := p.regs + map[1 := regs]))
  {
    var s := CodeSnapshot(regs);
    HeapInPlace(regs, p);
    NoUnmapping(s, p);
    assert FixupPhase(s, p, p, false, []);
    CleanHeap(regs, p);
    hide BreakPhase, UnmapPhase, FixupPhase, PagesRestored;
    assert Phases(s, p, p, p, p, p, p.(regs := p.regs + s.registers), false, false, []);
    assert RestoreWith(s, p, p.(regs := p.regs + s.registers), []);
  }

  lemma CleanHeap(regs: Regs, p: Proc)
    requires p.dirty == {1, 2}
    ensures PagesRestored(CodeSnapshot(regs).memory, p, p)
  {
    hide Zeros;
    forall i, a | a in p.mem && Holds(CodeSnapshot(regs).memory, i, a)
      ensures Page(a) == 3
    {
    }
  }

  function StraddleStates(regs: Regs): seq<Proc>
    requires CodeMapped(Straddling(regs), 1)
  {
    var q := Abandoned(Straddling(regs), 1, SYS_MUNMAP, 4096, 4096);
    [ClearRefs(CodeAndHeap(regs)), PageMapped(regs), Straddling(regs), q, q.(regs := q.regs + map[1 := regs])]
  }

  lemma StraddleIsRun(regs: Regs)
    ensures CodeMapped(Straddling(regs), 1)
    ensures IsRun(CodeAndHeap(regs), CodeSnapshot(regs), StraddleStates(regs), StraddleEvents(regs))
  {
    hide *;
    StraddlingFails(regs);
    var ck, s := CodeAndHeap(regs), CodeSnapshot(regs);
    var q := Abandoned(Straddling(regs), 1, SYS_MUNMAP, 4096, 4096);
    FirstRestoreFails(regs);
    NextRestoreSucceeds(regs, q);
    UserMoves(regs);
    FailedMove(ck, s, Straddling(regs), Some(8192), q);
    RestoredMove(ck, s, q, q.(regs := q.regs + map[1 := regs]));
    RunOfFour(ck, s, PageMapped(regs), Straddling(regs), q, q.(regs := q.regs + map[1 := regs]),
      User(Map(0, NEW_PAGE, Zeros(4096))), User(SetRegs(1, regs.(rip := 8191))), Failed(Some(8192)), Restored);
    StraddleStatesAre(regs);
  }

  lemma StraddleStatesAre(regs: Regs)
    requires CodeMapped(Straddling(regs), 1)
    ensures var q := Abandoned(Straddling(regs), 1, SYS_MUNMAP, 4096, 4096);
            StraddleStates(regs) ==
            [ClearRefs(CodeAndHeap(regs)), PageMapped(regs), Straddling(regs), q, q.(regs := q.regs + map[1 := regs])]
    ensures StraddleEvents(regs) ==
            [User(Map(0, NEW_PAGE, Zeros(4096))), User(SetRegs(1, regs.(rip := 8191))), Failed(Some(8192)), Restored]
  {
    hide Abandoned, Straddling, PageMapped, ClearRefs, CodeAndHeap, Zeros, CodeMapped;
  }

  lemma UserMoves(regs: Regs)
    ensures var ck, s := CodeAndHeap(regs), CodeSnapshot(regs);
            && Moves(ck, s, ClearRefs(ck), User(Map(0, NEW_PAGE, Zeros(4096))), PageMapped(regs))
            && Moves(ck, s, PageMapped(regs), User(SetRegs(1, regs.(rip := 8191))), Straddling(regs))
  {
    PageIsAllowed(regs);
    hide CodeAndHeap, CodeSnapshot, ClearRefs, Apply, Zeros;
    assert Allowed(CodeAndHeap(regs).regions, PageMapped(regs), SetRegs(1, regs.(rip := 8191)));
    hide Allowed;
  }

  lemma FailedMove(ck: Proc, s: Snapshot, p: Proc, torn: Option<int>, q: Proc)
    requires RestoreFails(s, p, q, torn)
    ensures Moves(ck, s, p, Failed(torn), q)
  {
  }

  lemma RestoredMove(ck: Proc, s: Snapshot, p: Proc, q: Proc)
    requires RestoreStep(s, p, q)
    ensures Moves(ck, s, p, Restored, q)
  {
  }

  lemma RunOfFour(ck: Proc, s: Snapshot, p1: Proc, p2: Proc, p3: Proc, p4: Proc,
      e0: Event, e1: Event, e2: Event, e3: Event)
    requires Moves(ck, s, ClearRefs(ck), e0, p1) && Moves(ck, s, p1, e1, p2)
    requires Moves(ck, s, p2, e2, p3) && Moves(ck, s, p3, e3, p4)
    ensures IsRun(ck, s, [ClearRefs(ck), p1, p2, p3, p4], [e0, e1, e2, e3])
  {
    hide Moves, ClearRefs;
  }

  /** A run with a restore that returns without error and does not bring all bytes back. */
  lemma CodeMayBeLost(regs: Regs)
    ensures CodeMapped(Straddling(regs), 1)
    ensures var ck, s := CodeAndHeap(regs), CodeSnapshot(regs);
            var states, events := StraddleStates(regs), StraddleEvents(regs);
            && WellFormed(ck) && SnapshotOf(ck, s) && IsRun(ck, s, states, events) && events[3] == Restored
            && states[4].mem != ck.mem
  {
    CodeAndHeapWellFormed(regs);
    CodeSnapshotIsOne(regs);
    StraddleIsRun(regs);
    ZeroCode(regs);
    hide WellFormed, SnapshotOf, IsRun, CodeAndHeap, CodeSnapshot, StraddleStates, CodeOf, CodeMapped;
    EveryRestoreOfEveryRun(CodeAndHeap(regs), CodeSnapshot(regs), StraddleStates(regs), StraddleEvents(regs), 3);
    assert LosesCode(CodeAndHeap(regs), Tears(StraddleEvents(regs)[2]));
  }
}

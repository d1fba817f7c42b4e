/** state/state.go, state/memory.go and controller/controller.go: the checkpoint object and its methods. */
module Checkpoint {
  import opened Results
  import opened Kernel
  import opened Layout
  import opened SoftDirty
  import opened MemoryPages
  import opened Tracing
  import opened Injection
  import opened Restoration
  import opened FullRestore
  import opened FailedRestores

  lemma Captured(p: Proc, m: Memory)
    requires m.region.writable ==>
               && |m.content| == m.region.end - m.region.start
               && forall k :: 0 <= k < |m.content| ==> HasByte(p.mem, m.region.start + k, m.content[k])
    requires !m.region.writable ==> m.content == []
    ensures Captures(p, m)
  {
  }

  lemma RegionMapped(p: Proc, r: Region)
    requires Consistent(p) && r in Visible(p.regions)
    ensures r.start < r.end && forall x :: r.start <= x < r.end ==> x in p.mem
  {
    assert r in p.regions;
    forall x | r.start <= x < r.end
      ensures x in p.mem
    {
      assert r.Contains(x);
    }
  }

  class State {
    var registers: map<int, Regs>
    var memoryLocations: seq<Memory>

    ghost function Snap(): Snapshot
      reads this
    {
      Snapshot(memoryLocations, registers)
    }

    /** NewState: registers and regions of a stopped process; no bytes yet. */
    constructor (t: Tracee)
      ensures registers == t.proc.regs
      ensures |memoryLocations| == |Visible(t.proc.regions)|
      ensures forall i :: 0 <= i < |memoryLocations| ==> memoryLocations[i] == Memory(Visible(t.proc.regions)[i], [])
    {
      registers := t.proc.regs;
      memoryLocations := [];
      new;
      var locations := t.NewMemoryLocations();
      memoryLocations := seq(|locations|, i requires 0 <= i < |locations| => Memory(locations[i], []));
    }

    /** Reads the bytes of every writable region out of /proc/pid/mem. */
    method SaveWritablePages(t: Tracee) returns (err: bool)
      requires Consistent(t.proc)
      requires |memoryLocations| == |Visible(t.proc.regions)|
      requires forall i :: 0 <= i < |memoryLocations| ==> memoryLocations[i] == Memory(Visible(t.proc.regions)[i], [])
      modifies this
      ensures registers == old(registers)
      ensures !err
      ensures |memoryLocations| == |Visible(t.proc.regions)|
      ensures forall i :: 0 <= i < |memoryLocations| ==>
                memoryLocations[i].region == Visible(t.proc.regions)[i] && Captures(t.proc, memoryLocations[i])
    {
      hide Consistent, Ordered, Captures, Visible;
      var i := 0;
      while i < |memoryLocations|
        invariant 0 <= i <= |memoryLocations| == |Visible(t.proc.regions)|
        invariant registers == old(registers)
        invariant forall j :: 0 <= j < i ==>
                    memoryLocations[j].region == Visible(t.proc.regions)[j] && Captures(t.proc, memoryLocations[j])
        invariant forall j :: i <= j < |memoryLocations| ==>
                    memoryLocations[j] == Memory(Visible(t.proc.regions)[j], [])
      {
        var memory := memoryLocations[i];
        if memory.region.writable {
          RegionMapped(t.proc, memory.region);
          var content := t.ReadMem(memory.region.start, memory.region.end - memory.region.start);
          if content.None? {
            return true;
          }
          Captured(t.proc, memory.(content := content.value));
          memoryLocations := memoryLocations[i := memory.(content := content.value)];
        } else {
          Captured(t.proc, memory);
        }
        i := i + 1;
      }
      return false;
    }

    method GetMemory(name: Name) returns (r: Result<Memory>)
      ensures r.Ok? <==> Named(memoryLocations, name).Some?
      ensures r.Ok? ==> r.value == Named(memoryLocations, name).value
    {
      var i := 0;
      while i < |memoryLocations|
        invariant 0 <= i <= |memoryLocations|
        invariant Named(memoryLocations, name) == Named(memoryLocations[i..], name)
      {
        if memoryLocations[i].region.name == name {
          return Ok(memoryLocations[i]);
        }
        i := i + 1;
      }
      return Err;
    }

    /** The heap ends elsewhere than it did; an error when either heap is missing. */
    method ProgramBreakChanged(t: Tracee) returns (r: Result<bool>)
      ensures var before, after := Named(memoryLocations, HEAP), LastNamed(Visible(t.proc.regions), HEAP);
              && (r.Ok? <==> before.Some? && after.Some?)
              && (r.Ok? ==> r.value == (before.value.region.end != after.value.end))
    {
      hide Visible, Named;
      var newMemory := t.NewMemoryLocations();
      var beforeHeap := GetMemory(HEAP);
      if beforeHeap.Err? {
        return Err;
      }
      var afterHeap := None;
      var i := 0;
      while i < |newMemory|
        invariant 0 <= i <= |newMemory|
        invariant afterHeap == LastNamed(newMemory[..i], HEAP)
      {
        assert newMemory[..i + 1][..i] == newMemory[..i];
        if newMemory[i].name == HEAP {
          afterHeap := Some(newMemory[i]);
        }
        i := i + 1;
      }
      assert newMemory[..i] == newMemory;
      if afterHeap.None? {
        return Err;
      }
      return Ok(beforeHeap.value.region.end != afterHeap.value.end);
    }

    method NumMemoryLocationsChanged(t: Tracee) returns (changed: bool)
      ensures changed == (|memoryLocations| != |Visible(t.proc.regions)|)
    {
      var newMemory := t.NewMemoryLocations();
      changed := |memoryLocations| != |newMemory|;
    }

    /** Compares all fields of all regions, position by position. */
    method MemoryChanged(t: Tracee) returns (changed: bool)
      ensures changed == LayoutDiffers(memoryLocations, Visible(t.proc.regions))
    {
      var newMemory := t.NewMemoryLocations();
      if |memoryLocations| != |newMemory| {
        return true;
      }
      var i := 0;
      while i < |newMemory|
        invariant 0 <= i <= |newMemory|
        invariant forall j :: 0 <= j < i ==> memoryLocations[j].region == newMemory[j]
      {
        var newMem, oldMem := newMemory[i], memoryLocations[i].region;
        if newMem.name != oldMem.name || newMem.start != oldMem.start || newMem.end != oldMem.end
           || newMem.offset != oldMem.offset || newMem.readable != oldMem.readable
           || newMem.writable != oldMem.writable || newMem.executable != oldMem.executable
           || newMem.shared != oldMem.shared || newMem.majorDevice != oldMem.majorDevice
           || newMem.minorDevice != oldMem.minorDevice || newMem.inode != oldMem.inode
        {
          return true;
        }
        i := i + 1;
      }
      return false;
    }

    /** Any thread of the checkpoint will do for a system call. */
    method ChooseAnyThread() returns (tid: int)
      requires registers.Keys != {}
      ensures tid in registers
    {
      var tids := registers.Keys;
      EmptyOrInhabited(tids);
      tid :| tid in tids;
    }

    /** brk(2) with the old end of the heap; an error unless the kernel grants exactly that. */
    method RestoreProgramBreak(t: Tracee) returns (err: bool)
      requires Consistent(t.proc) && registers.Keys != {}
      modifies t
      ensures !err ==>
                && Named(memoryLocations, HEAP).Some?
                && var end := Named(memoryLocations, HEAP).value.region.end;
                   && Returned(old(t.proc), SYS_BRK, end, 0) == end
                   && SameUpToCode(old(t.proc).regs, registers.Keys, Effect(old(t.proc), SYS_BRK, end, 0), t.proc)
      ensures err ==>
                || (Named(memoryLocations, HEAP).None? && t.proc == old(t.proc))
                || exists torn :: BreakFails(Snap(), old(t.proc), t.proc, torn)
    {
      hide CallFails, TornAt, SameUpToDirty, SameUpToCode, Effect, Returned, Injectable, Injected;
      ghost var p := t.proc;
      var beforeHeap := GetMemory(HEAP);
      if beforeHeap.Err? {
        return true;
      }
      var tid := ChooseAnyThread();
      var afterOffset := RunSyscall(t, tid, SYS_BRK, beforeHeap.value.region.end, 0);
      if afterOffset.Err? {
        assert BreakFails(Snap(), p, t.proc, TornAt(p, tid, SYS_BRK, beforeHeap.value.region.end, 0));
        return true;
      }
      InjectedUpToCode(p, tid, SYS_BRK, beforeHeap.value.region.end, 0, registers.Keys);
      assert beforeHeap.value.region.end != afterOffset.value ==> BreakFails(Snap(), p, t.proc, None);
      return beforeHeap.value.region.end != afterOffset.value;
    }

    static method CalculateNewLocations(oldState: seq<Memory>,
        newState: seq<Region>) returns (newLocations: seq<Region>)
      ensures newLocations == NewLocations(oldState, newState)
    {
      newLocations := [];
      var i := 0;
      while i < |newState|
        invariant 0 <= i <= |newState|
        invariant newLocations == NewLocations(oldState, newState[..i])
      {
        var newLoc := newState[i];
        var existed := false;
        var j := 0;
        while j < |oldState|
          invariant 0 <= j <= |oldState|
          invariant existed <==> exists k ::
                      0 <= k < j && oldState[k].region.name == newLoc.name && oldState[k].region.start == newLoc.start
        {
          if newLoc.name == oldState[j].region.name && newLoc.start == oldState[j].region.start {
            existed := true;
          }
          j := j + 1;
        }
        assert existed <==> Existed(oldState, newLoc);
        assert newState[..i + 1][..i] == newState[..i];
        if !existed {
          newLocations := newLocations + [newLoc];
        }
        i := i + 1;
      }
      assert newState[..i] == newState;
    }

    method UnmapNewLocations(t: Tracee) returns (err: bool)
      requires Consistent(t.proc) && registers.Keys != {}
      modifies t
      ensures var news := NewLocations(memoryLocations, Visible(old(t.proc).regions));
              !err ==>
                && Consistent(t.proc)
                && SameUpToCode(old(t.proc).regs, registers.Keys, Unmapped(old(t.proc), news, |news|), t.proc)
      ensures err ==> exists torn :: UnmapFails(Snap(), old(t.proc), t.proc, torn)
    {
      hide Effect, Munmap, NewLocations, Visible, Injectable, CallFails, TornAt, SameUpToDirty, SameUpToCode, Injected,
          Consistent, Returned;
      ghost var p := t.proc;
      var currentMemory := t.NewMemoryLocations();
      var newLocations := CalculateNewLocations(memoryLocations, currentMemory);
      UpToNothing(p, registers.Keys);
      var i := 0;
      while i < |newLocations|
        invariant 0 <= i <= |newLocations|
        invariant Consistent(t.proc) && t.proc.regs == p.regs
        invariant SameUpToCode(p.regs, registers.Keys, Unmapped(p, newLocations, i), t.proc)
      {
        var loc := newLocations[i];
        NewLocationAligned(p, memoryLocations, loc);
        var tid := ChooseAnyThread();
        ghost var q := t.proc;
        UpToCodeIsUpToDirty(p.regs, registers.Keys, Unmapped(p, newLocations, i), q);
        UnmapSameUpToDirty(Unmapped(p, newLocations, i), q, loc);
        var returnVal := RunSyscall(t, tid, SYS_MUNMAP, loc.start, loc.end - loc.start);
        if returnVal.Err? || returnVal.value != 0 {
          ghost var torn := TornAt(q, tid, SYS_MUNMAP, loc.start, loc.end - loc.start);
          assert UnmapFailsAt(Snap(), p, i, q, tid, t.proc, torn);
          assert UnmapFails(Snap(), p, t.proc, torn);
          return true;
        }
        OneMoreUnmapped(p, newLocations, i, q, tid, registers.Keys);
        i := i + 1;
      }
      return false;
    }

    /** One thread runs on until it enters its next system call; what it executes in
        between is up to the user's code. */
    method FixupSyscallState(t: Tracee, window: seq<UserOp>)
      requires Consistent(t.proc) && registers.Keys != {}
      modifies t
      ensures Consistent(t.proc)
      ensures exists tid :: tid in registers && t.proc == Window(old(t.proc), tid, window)
    {
      var tid := ChooseAnyThread();
      WindowConsistent(t.proc, tid, window);
      t.proc := Window(t.proc, tid, window);
    }

    /** restoreMemoryBatch, as one goroutine runs it: file position, byte number and address
        advance together, one page at a time. */
    static method RestoreMemoryBatch(t: Tracee, startIndex: nat, endIndex: nat, pagemapStartOffset: nat, memory: Memory)
      requires Saved(memory) && memory.region.writable && WholePages(t.proc)
      requires startIndex <= endIndex <= memory.NumPages()
      requires pagemapStartOffset == memory.region.start / PAGE_SIZE * ENTRY_SIZE
      modifies t
      ensures t.proc == BatchWritten(old(t.proc), memory, startIndex, endIndex)
    {
      ghost var p := t.proc;
      BatchNone(p, memory, startIndex);
      assert memory.PageAt(startIndex) == memory.region.start + startIndex * PAGE_SIZE;
      hide *;
      var position := pagemapStartOffset + startIndex * ENTRY_SIZE;
      var sectionOffset := startIndex * PAGE_SIZE;
      var currentPageOffset := memory.region.start + sectionOffset;
      var currentByteNum := sectionOffset;
      var i := startIndex;
      while i < endIndex
        invariant startIndex <= i <= endIndex
        invariant position == pagemapStartOffset + i * ENTRY_SIZE
        invariant currentPageOffset == memory.PageAt(i) && currentByteNum == i * PAGE_SIZE
        invariant t.proc == BatchWritten(p, memory, startIndex, i)
      {
        OnePageMore(p, memory, startIndex, i, position);
        var entryBytes := t.ReadPagemap(position);
        position := position + ENTRY_SIZE;
        if entryBytes[6] / 128 == 1 {
          var thisPage := memory.content[currentByteNum..currentByteNum + PAGE_SIZE];
          t.WriteMem(thisPage, currentPageOffset);
        }
        currentPageOffset := currentPageOffset + PAGE_SIZE;
        currentByteNum := currentByteNum + PAGE_SIZE;
        i := i + 1;
      }
    }

    /** The eight batches of a region, started one after the other. */
    static method SingleMemoryRestoreDirtyPages(t: Tracee, memory: Memory)
      requires Saved(memory) && memory.region.writable && WholePages(t.proc)
      modifies t
      ensures 0 <= memory.NumPages()
      ensures t.proc == BatchWritten(old(t.proc), memory, 0, memory.NumPages())
    {
      ghost var p := t.proc;
      var startPage := memory.region.start / PAGE_SIZE;
      var endPage := memory.region.end / PAGE_SIZE;
      var numPages: nat := endPage - startPage;
      var pagemapStartOffset := startPage * ENTRY_SIZE;
      var batchSize := numPages / PARALLELISM;
      var remainder := numPages % PARALLELISM;
      BatchNone(p, memory, 0);
      BatchBounds(numPages, 0);
      ghost var done: nat := 0;
      hide *;
      var i := 0;
      while i < PARALLELISM
        invariant 0 <= i <= PARALLELISM
        invariant done == (if i < PARALLELISM then i * batchSize else numPages) <= numPages
        invariant t.proc == BatchWritten(p, memory, 0, done)
      {
        BatchIs(numPages, i);
        var startIndex := i * batchSize;
        var endIndex := startIndex + batchSize;
        if i == PARALLELISM - 1 {
          endIndex := endIndex + remainder;
        }
        BatchKeeps(p, memory, 0, startIndex);
        BatchesAdd(p, memory, 0, startIndex, endIndex);
        RestoreMemoryBatch(t, startIndex, endIndex, pagemapStartOffset, memory);
        done := endIndex;
        i := i + 1;
      }
    }

    method RestoreDirtyPages(t: Tracee)
      requires AllSaved(memoryLocations) && Consistent(t.proc)
      modifies t
      ensures PagesRestored(memoryLocations, old(t.proc), t.proc)
    {
      ghost var p, ms := t.proc, memoryLocations;
      ConsistentWholePages(p);
      NothingRestored(p);
      hide *;
      var i := 0;
      while i < |memoryLocations|
        invariant 0 <= i <= |memoryLocations|
        invariant PagesRestored(ms[..i], p, t.proc)
      {
        var memory := memoryLocations[i];
        ghost var q := t.proc;
        SavedAt(ms, i);
        RestoredWholePages(ms[..i], p, q);
        if memory.region.writable {
          SingleMemoryRestoreDirtyPages(t, memory);
        }
        OneRegionMore(ms, i, p, q, t.proc);
        i := i + 1;
      }
      assert ms[..i] == ms;
    }

    /** Writes the saved registers of every thread of the checkpoint. Where one of them is gone the
        original waits for ever, which is what stuck stands for. */
    method RestoreRegs(t: Tracee) returns (stuck: bool)
      modifies t
      ensures stuck <==> !(registers.Keys <= old(t.proc).regs.Keys)
      ensures stuck ==> t.proc == old(t.proc).(regs := t.proc.regs) && t.proc.regs.Keys == old(t.proc).regs.Keys
      ensures !stuck ==> t.proc == old(t.proc).(regs := old(t.proc).regs + registers)
    {
      hide Restrict;
      ghost var p := t.proc;
      var todo := registers.Keys;
      ghost var done: set<int> := {};
      NoneLoaded(p.regs, registers);
      while todo != {}
        invariant todo <= registers.Keys && done == registers.Keys - todo
        invariant done <= p.regs.Keys
        invariant t.proc == p.(regs := p.regs + Restrict(registers, done))
        decreases |todo|
      {
        EmptyOrInhabited(todo);
        var tid: int :| tid in todo;
        OneMoreLoaded(p.regs, registers, done, tid);
        var ok := t.SetRegs(tid, registers[tid]);
        if !ok {
          return true;
        }
        assert done + {tid} == registers.Keys - (todo - {tid});
        done := done + {tid};
        todo := todo - {tid};
      }
      AllLoaded(registers);
      assert done == registers.Keys;
      return false;
    }

    /** How many pages of a region have their soft-dirty bit set. */
    method CountDirtyPages(t: Tracee, name: Name) returns (r: Result<nat>)
      requires AllSaved(memoryLocations)
      ensures r.Ok? <==> Named(memoryLocations, name).Some?
      ensures r.Ok? ==>
                var m := Named(memoryLocations, name).value;
                r.value == |set p | p in t.proc.dirty && Page(m.region.start) <= p < Page(m.region.end)|
    {
      var memory := GetMemory(name);
      if memory.Err? {
        return Err;
      }
      var m := memory.value;
      assert Saved(m);
      var startPage := m.region.start / PAGE_SIZE;
      var endPage := m.region.end / PAGE_SIZE;
      var numPages := endPage - startPage;
      var position := startPage * ENTRY_SIZE;
      ghost var seen: set<int> := {};
      var dirty := 0;
      var i := 0;
      while i < numPages
        invariant 0 <= i <= numPages
        invariant position == (startPage + i) * ENTRY_SIZE
        invariant seen == set p | p in t.proc.dirty && Page(m.region.start) <= p < startPage + i
        invariant dirty == |seen|
      {
        var entryBytes := t.ReadPagemap(position);
        position := position + ENTRY_SIZE;
        if entryBytes[6] / 128 == 1 {
          dirty := dirty + 1;
          seen := seen + {startPage + i};
        }
        i := i + 1;
      }
      return Ok(dirty);
    }
  }

  ghost function Restrict(m: map<int, Regs>, keys: set<int>): map<int, Regs> {
    map k | k in m && k in keys :: m[k]
  }

  lemma NoneLoaded(before: map<int, Regs>, m: map<int, Regs>)
    ensures before + Restrict(m, {}) == before
  {
  }

  /** One more thread has its registers loaded. */
  lemma OneMoreLoaded(before: map<int, Regs>, m: map<int, Regs>, keys: set<int>, k: int)
    requires k in m && k !in keys && keys <= before.Keys
    ensures var regs := before + Restrict(m, keys);
            && regs.Keys == before.Keys
            && before + Restrict(m, keys + {k}) == regs[k := m[k]]
  {
  }

  lemma AllLoaded(m: map<int, Regs>)
    ensures Restrict(m, m.Keys) == m
  {
  }

  lemma NewLocationAligned(p: Proc, ms: seq<Memory>, loc: Region)
    requires Consistent(p) && loc in NewLocations(ms, Visible(p.regions))
    ensures loc.start < loc.end && Aligned(loc.start) && Aligned(loc.end)
  {
    assert loc in p.regions;
  }

  /** One turn of the loop of a batch. */
  lemma OnePageMore(p: Proc, m: Memory, lo: nat, k: nat, position: nat)
    requires Saved(m) && m.region.writable && lo <= k < m.NumPages() && WholePages(p)
    requires position == m.region.start / PAGE_SIZE * ENTRY_SIZE + k * ENTRY_SIZE
    ensures (k + 1) * PAGE_SIZE <= |m.content| && (k + 1) * PAGE_SIZE == k * PAGE_SIZE + PAGE_SIZE
    ensures position % ENTRY_SIZE == 0 && position / ENTRY_SIZE == Page(m.PageAt(k))
    ensures position + ENTRY_SIZE == m.region.start / PAGE_SIZE * ENTRY_SIZE + (k + 1) * ENTRY_SIZE
    ensures m.PageAt(k + 1) == m.PageAt(k) + PAGE_SIZE
    ensures var q, page := BatchWritten(p, m, lo, k), m.content[k * PAGE_SIZE..k * PAGE_SIZE + PAGE_SIZE];
            BatchWritten(p, m, lo, k + 1) == (if Page(m.PageAt(k)) in q.dirty then WriteAt(q, m.PageAt(k), page) else q)
  {
    OffsetsAgree(m, k, 0);
    BatchKeeps(p, m, lo, k);
    BatchesAdd(p, m, lo, k, k + 1);
    hide BatchWritten, WriteAt, WholePages, Page;
    BatchOne(BatchWritten(p, m, lo, k), m, k);
  }

  lemma BatchIs(n: nat, i: nat)
    requires i < PARALLELISM
    ensures var size := n / PARALLELISM;
            && i * size + size == (i + 1) * size && i * size <= i * size + size <= n
            && (i == PARALLELISM - 1 ==> i * size + size + n % PARALLELISM == n)
  {
    BatchBounds(n, i);
  }

  lemma OneRegionMore(ms: seq<Memory>, i: nat, p: Proc, q: Proc, r: Proc)
    requires AllSaved(ms) && i < |ms| && 0 <= ms[i].NumPages() && PagesRestored(ms[..i], p, q)
    requires Saved(ms[i]) && r == if ms[i].region.writable then BatchWritten(q, ms[i], 0, ms[i].NumPages()) else q
    ensures PagesRestored(ms[..i + 1], p, r)
  {
    AllSavedPrefix(ms, i + 1);
    hide *;
    assert ms[..i + 1] == ms[..i] + [ms[i]];
    RestoredNext(ms[..i], ms[i], ms[..i + 1], p, q, r);
  }

  lemma NothingRestored(p: Proc)
    ensures PagesRestored([], p, p)
  {
  }

  lemma RestoredWholePages(ms: seq<Memory>, p: Proc, q: Proc)
    requires PagesRestored(ms, p, q) && WholePages(p)
    ensures WholePages(q)
  {
    hide PagesRestored, Page;
    assert q.mem.Keys == p.mem.Keys by { RestoredKeys(ms, p, q); }
    forall a, x | a in q.mem && Page(a) == Page(x)
      ensures x in q.mem
    {
      assert a in p.mem.Keys && x in p.mem;
    }
  }

  lemma RestoredKeys(ms: seq<Memory>, p: Proc, q: Proc)
    requires PagesRestored(ms, p, q)
    ensures q.mem.Keys == p.mem.Keys
  {
  }

  lemma SavedAt(ms: seq<Memory>, i: nat)
    requires AllSaved(ms) && i < |ms|
    ensures Saved(ms[i]) && 0 <= ms[i].NumPages()
  {
    assert ms[i] in ms;
  }

  lemma AllSavedPrefix(ms: seq<Memory>, n: nat)
    requires AllSaved(ms) && n <= |ms|
    ensures AllSaved(ms[..n])
  {
    assert forall m :: m in ms[..n] ==> m in ms;
  }

  lemma UnmapSameUpToDirty(e: Proc, p: Proc, loc: Region)
    requires SameUpToDirty(e, p) && Consistent(p) && loc.start < loc.end && Aligned(loc.start) && Aligned(loc.end)
    ensures SameUpToDirty(Munmap(e, loc.start, loc.end), Effect(p, SYS_MUNMAP, loc.start, loc.end - loc.start))
    ensures Consistent(Effect(p, SYS_MUNMAP, loc.start, loc.end - loc.start))
    ensures Returned(p, SYS_MUNMAP, loc.start, loc.end - loc.start) == 0
  {
    MunmapIs(e, loc.start, loc.end);
    MunmapIs(p, loc.start, loc.end);
    MunmapConsistent(p, loc.start, loc.end);
  }

  lemma UpToCodeIsUpToDirty(regs: map<int, Regs>, tids: set<int>, e: Proc, q: Proc)
    requires SameUpToCode(regs, tids, e, q)
    ensures SameUpToDirty(e, q)
  {
  }

  lemma UpToNothing(p: Proc, tids: set<int>)
    ensures SameUpToCode(p.regs, tids, p, p)
  {
  }

  lemma InjectedUpToCode(p: Proc, tid: int, number: int, arg1: nat, arg2: nat, tids: set<int>)
    requires tid in p.regs && tid in tids
    ensures SameUpToCode(p.regs, tids, Effect(p, number, arg1, arg2), Injected(p, tid, number, arg1, arg2))
    ensures SameUpToDirty(Effect(p, number, arg1, arg2), Injected(p, tid, number, arg1, arg2))
  {
    hide Effect;
  }

  /** The call that unmaps one more region, made in q. */
  lemma OneMoreUnmapped(p: Proc, news: seq<Region>, i: nat, q: Proc, tid: int, tids: set<int>)
    requires i < |news| && news[i].start < news[i].end && q.regs == p.regs && tid in p.regs && tid in tids
    requires SameUpToCode(p.regs, tids, Unmapped(p, news, i), q)
    requires var loc := news[i];
             && SameUpToDirty(Munmap(Unmapped(p, news, i), loc.start, loc.end),
                              Effect(q, SYS_MUNMAP, loc.start, loc.end - loc.start))
             && Consistent(Effect(q, SYS_MUNMAP, loc.start, loc.end - loc.start))
    ensures var u := Injected(q, tid, SYS_MUNMAP, news[i].start, news[i].end - news[i].start);
            Consistent(u) && u.regs == p.regs && SameUpToCode(p.regs, tids, Unmapped(p, news, i + 1), u)
  {
    var e, loc := Unmapped(p, news, i), news[i];
    MunmapIs(e, loc.start, loc.end);
    MunmapIs(q, loc.start, loc.end);
    hide MunmapChange, Page;
  }

  lemma {:induction false} WindowConsistent(p: Proc, tid: int, ops: seq<UserOp>)
    requires Consistent(p)
    ensures Consistent(Window(p, tid, ops))
    decreases ops
  {
    if ops != [] {
      var op := ops[0];
      match op {
        case Write(a, b) =>
          if r :| r in p.regions && r.writable && r.Contains(a) {
            assert Mapped(p.regions, a);
            assert Apply(p, op).mem.Keys == p.mem.Keys;
            WindowConsistent(Apply(p, op), tid, ops[1..]);
          } else {
            WindowConsistent(p, tid, ops[1..]);
          }
        case SetRegs(t, regs) =>
          WindowConsistent(Apply(p, op), tid, ops[1..]);
          WindowConsistent(p, tid, ops[1..]);
        case _ =>
          WindowConsistent(p, tid, ops[1..]);
      }
    }
  }

  lemma VisibleSaved(p: Proc, ms: seq<Memory>)
    requires Consistent(p) && |ms| == |Visible(p.regions)|
    requires forall i :: 0 <= i < |ms| ==> ms[i].region == Visible(p.regions)[i] && Captures(p, ms[i])
    ensures AllSaved(ms)
  {
    VisibleOrdered(p.regions);
    forall m | m in ms
      ensures Saved(m)
    {
      assert m.region in Visible(p.regions);
    }
  }

  lemma EffectConsistent(p: Proc, q: Proc, end: nat)
    requires WellFormed(p) && SameUpToDirty(Effect(p, SYS_BRK, end, 0), q)
    ensures Consistent(q)
  {
    if BrkAllowed(p.regions, end) {
      BrkWellFormed(p, end);
    } else {
      CommitNothing(p);
    }
  }

  // Where a restore returns an error.

  lemma FailsAtOnce(s: Snapshot, p: Proc)
    requires Named(s.memory, HEAP).None? || LastNamed(Visible(p.regions), HEAP).None?
    ensures RestoreErrs(s, p, p)
  {
    assert RestoreFails(s, p, p, None);
  }

  lemma FailsAtBreak(s: Snapshot, p: Proc, q: Proc)
    requires exists torn :: BreakFails(s, p, q, torn)
    ensures RestoreErrs(s, p, q)
  {
    var torn :| BreakFails(s, p, q, torn);
    assert RestoreFails(s, p, q, torn);
  }

  lemma FailsAtUnmap(s: Snapshot, p: Proc, p1: Proc, b: bool, q: Proc)
    requires BreakPhase(s, p, p1, b) && exists torn :: UnmapFails(s, p1, q, torn)
    ensures RestoreErrs(s, p, q)
  {
    var torn :| UnmapFails(s, p1, q, torn);
    assert RestoreFails(s, p, q, torn);
  }

  /** s is a snapshot of ck, and p came from ck by changes that a restore can undo. */
  ghost predicate IsFrom(ck: Proc, s: Snapshot, p: Proc) {
    WellFormed(ck) && SnapshotOf(ck, s) && Tracks(ck, p)
  }

  class Controller {
    var checkpoints: seq<State>

    constructor ()
      ensures checkpoints == []
    {
      checkpoints := [];
    }

    /** A checkpoint has the bytes of its writable regions and at least one thread. */
    ghost predicate Usable()
      reads this, checkpoints
    {
      forall s :: s in checkpoints ==> AllSaved(s.memoryLocations) && s.registers.Keys != {}
    }

    /** Saves registers, layout and writable bytes of the stopped process, and clears its
        soft-dirty bits. */
    method TakeCheckpoint(t: Tracee) returns (err: bool)
      requires Usable() && Consistent(t.proc) && t.proc.regs.Keys != {}
      modifies this, t
      ensures !err && Usable()
      ensures |checkpoints| == |old(checkpoints)| + 1 && checkpoints[..|old(checkpoints)|] == old(checkpoints)
      ensures SnapshotOf(old(t.proc), checkpoints[|old(checkpoints)|].Snap())
      ensures t.proc == ClearRefs(old(t.proc))
    {
      hide Consistent, AllSaved, Visible, Captures, ClearRefs;
      var state := new State(t);
      err := state.SaveWritablePages(t);
      if err {
        return;
      }
      VisibleSaved(t.proc, state.memoryLocations);
      t.WriteClearRefs();
      checkpoints := checkpoints + [state];
    }

    /** Goes back to the first checkpoint. Without an error it has gone through the five phases,
        and a process that was only changed within bounds since that checkpoint has its layout,
        its bytes and its registers back. With an error every difference is still tracked, unless
        code was torn that no later restore can mend. */
    method Restore(t: Tracee, window: seq<UserOp>) returns (err: bool, stuck: bool)
      requires Usable() && WellFormed(t.proc)
      modifies t
      ensures checkpoints == [] ==> err && !stuck && t.proc == old(t.proc)
      ensures err ==> !stuck && (checkpoints == [] || RestoreErrs(checkpoints[0].Snap(), old(t.proc), t.proc))
      ensures stuck ==> checkpoints != [] && RestoreHangs(checkpoints[0].Snap(), old(t.proc), t.proc)
      ensures !err && !stuck ==> RestoreWith(checkpoints[0].Snap(), old(t.proc), t.proc, window)
      ensures checkpoints != [] ==> forall ck, torn ::
                IsFrom(ck, checkpoints[0].Snap(), old(t.proc)) ==>
                RestoreFails(checkpoints[0].Snap(), old(t.proc), t.proc, torn) ==>
                  (Tracks(ck, t.proc) <==> !LosesCode(ck, torn))
      ensures checkpoints != [] ==> forall ck :: IsFrom(ck, checkpoints[0].Snap(), old(t.proc)) ==>
                && !stuck
                && (!err ==>
                      && t.proc.regions == ck.regions && t.proc.mem == ck.mem && t.proc.regs == ck.regs
                      && Tracks(ck, t.proc))
    {
      stuck := false;
      if |checkpoints| == 0 {
        return true, false;
      }
      ghost var snap, p := checkpoints[0].Snap(), t.proc;
      err, stuck := RestoreInPhases(checkpoints[0], t, window);
      forall ck, torn | IsFrom(ck, snap, p) && RestoreFails(snap, p, t.proc, torn)
        ensures Tracks(ck, t.proc) <==> !LosesCode(ck, torn)
      {
        FailedRestoreTracksIff(ck, snap, p, t.proc, torn);
      }
      forall ck | IsFrom(ck, snap, p)
        ensures !stuck
        ensures !err ==> t.proc.regions == ck.regions && t.proc.mem == ck.mem && t.proc.regs == ck.regs
        ensures !err ==> Tracks(ck, t.proc)
      {
        NoRestoreHangs(ck, snap, p, t.proc);
        if !err {
          assert RestoreStep(snap, p, t.proc);
          RestoreUndoesEverything(ck, snap, p, t.proc);
        }
      }
    }

    /** The body of Restore once there is a checkpoint. */
    method RestoreInPhases(state: State, t: Tracee, window: seq<UserOp>) returns (err: bool, stuck: bool)
      requires AllSaved(state.memoryLocations) && state.registers.Keys != {} && WellFormed(t.proc)
      modifies t
      ensures !err && !stuck ==> RestoreWith(state.Snap(), old(t.proc), t.proc, window)
      ensures err ==> !stuck && RestoreErrs(state.Snap(), old(t.proc), t.proc)
      ensures stuck ==> RestoreHangs(state.Snap(), old(t.proc), t.proc)
    {
      hide Ordered, Mapped, HeapOk, AllSaved, Effect, Visible, NewLocations, Unmapped, PagesRestored, Window;
      hide SameUpToDirty, SameUpToCode, RestoreErrs, BreakFails, UnmapFails;
      stuck := false;
      ghost var p := t.proc;
      ghost var s := state.Snap();
      var fixup := false;
      var broken := state.ProgramBreakChanged(t);
      if broken.Err? {
        FailsAtOnce(s, p);
        return true, false;
      }
      if broken.value {
        fixup := true;
        err := state.RestoreProgramBreak(t);
        if err {
          FailsAtBreak(s, p, t.proc);
          return;
        }
        UpToCodeIsUpToDirty(p.regs, s.registers.Keys,
          Effect(p, SYS_BRK, Named(state.memoryLocations, HEAP).value.region.end, 0), t.proc);
        EffectConsistent(p, t.proc, Named(state.memoryLocations, HEAP).value.region.end);
      }
      ghost var p1 := t.proc;
      assert BreakPhase(s, p, p1, broken.value);
      hide BreakPhase;
      var changed := state.NumMemoryLocationsChanged(t);
      if changed {
        fixup := true;
        err := state.UnmapNewLocations(t);
        if err {
          FailsAtUnmap(s, p, p1, broken.value, t.proc);
          return;
        }
      }
      ghost var p2 := t.proc;
      assert UnmapPhase(s, p1, p2, changed);
      hide UnmapPhase;
      if fixup {
        state.FixupSyscallState(t, window);
      }
      ghost var p3 := t.proc;
      assert FixupPhase(s, p2, p3, broken.value || changed, window);
      hide FixupPhase;
      state.RestoreDirtyPages(t);
      ghost var p4 := t.proc;
      assert FourPhases(s, p, p1, p2, p3, p4, broken.value, changed, window);
      stuck := state.RestoreRegs(t);
      err := false;
      if stuck {
        assert RegistersStuck(s, p4, t.proc);
      } else {
        assert Phases(s, p, p1, p2, p3, p4, t.proc, broken.value, changed, window);
      }
    }
  }
}

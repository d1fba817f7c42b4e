/** The traced process as its tracer sees it: ptrace requests and the files under /proc/pid. */
module Tracing {
  import opened Results
  import opened Kernel
  import opened MemoryPages

  class Tracee {
    var proc: Proc

    constructor (p: Proc)
      ensures proc == p
    {
      proc := p;
    }

    method GetRegs(tid: int) returns (r: Option<Regs>)
      ensures r == if tid in proc.regs then Some(proc.regs[tid]) else None
    {
      r := if tid in proc.regs then Some(proc.regs[tid]) else None;
    }

    method SetRegs(tid: int, regs: Regs) returns (ok: bool)
      modifies this
      ensures ok == (tid in old(proc).regs)
      ensures proc == if ok then old(proc).(regs := old(proc).regs[tid := regs]) else old(proc)
    {
      ok := tid in proc.regs;
      if ok {
        proc := proc.(regs := proc.regs[tid := regs]);
      }
    }

    method PeekData(a: int) returns (two: Option<seq<Bytes.Byte>>)
      ensures two == if a in proc.mem && a + 1 in proc.mem then Some([proc.mem[a], proc.mem[a + 1]]) else None
    {
      two := if a in proc.mem && a + 1 in proc.mem then Some([proc.mem[a], proc.mem[a + 1]]) else None;
    }

    method PokeData(a: int, two: seq<Bytes.Byte>) returns (ok: bool)
      requires |two| == 2
      modifies this
      ensures ok == (a in old(proc).mem && a + 1 in old(proc).mem)
      ensures proc == PokeMapped(old(proc), a, two)
    {
      ok := a in proc.mem && a + 1 in proc.mem;
      proc := PokeMapped(proc, a, two);
    }

    method Step(tid: int)
      requires tid in proc.regs
      modifies this
      ensures proc == SingleStep(old(proc), tid)
    {
      proc := SingleStep(proc, tid);
    }

    /** The scan of /proc/pid/maps. */
    method NewMemoryLocations() returns (locations: seq<Region>)
      ensures locations == Visible(proc.regions)
    {
      locations := [];
      var i := 0;
      while i < |proc.regions|
        invariant 0 <= i <= |proc.regions|
        invariant locations == Visible(proc.regions[..i])
      {
        assert proc.regions[..i + 1][..i] == proc.regions[..i];
        if !KernelOwned(proc.regions[i].name) {
          locations := locations + [proc.regions[i]];
        }
        i := i + 1;
      }
      assert proc.regions[..i] == proc.regions;
    }

    /** One entry of /proc/pid/pagemap, eight bytes in little-endian order. */
    method ReadPagemap(position: nat) returns (entry: seq<Bytes.Byte>)
      requires position % ENTRY_SIZE == 0
      ensures |entry| == ENTRY_SIZE
      ensures entry[6] / 128 == (if position / ENTRY_SIZE in proc.dirty then 1 else 0)
    {
      var low: nat :| 0 <= low < BIT_55;
      var high: nat :| 0 <= high < 128;
      var e := PagemapEntry(proc, position / ENTRY_SIZE, low, high);
      SoftDirtyBit(proc, position / ENTRY_SIZE, low, high);
      entry := seq(ENTRY_SIZE, i => if i == 6 then ByteSix(e) else 0);
    }

    method WriteMem(content: seq<Bytes.Byte>, a: int)
      modifies this
      ensures proc == WriteAt(old(proc), a, content)
    {
      proc := WriteAt(proc, a, content);
    }

    method ReadMem(a: int, n: nat) returns (content: Option<seq<Bytes.Byte>>)
      ensures content.None? ==> exists x :: x !in proc.mem && a <= x < a + n
      ensures content.Some? ==> |content.value| == n
      ensures content.Some? ==> forall i :: 0 <= i < n ==> HasByte(proc.mem, a + i, content.value[i])
    {
      var bytes: seq<Bytes.Byte> := [];
      while |bytes| < n
        invariant |bytes| <= n
        invariant forall i :: 0 <= i < |bytes| ==> HasByte(proc.mem, a + i, bytes[i])
      {
        if a + |bytes| !in proc.mem {
          return None;
        }
        bytes := bytes + [proc.mem[a + |bytes|]];
      }
      content := Some(bytes);
    }

    method WriteClearRefs()
      modifies this
      ensures proc == ClearRefs(old(proc))
    {
      proc := ClearRefs(proc);
    }
  }
}

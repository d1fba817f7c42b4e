/**
 invoker/workerpool/scheduler.go: the three lists of a scheduler, and its critical sections.
 Each section is a function on the lists, and a method of the scheduler that is proved to
 compute it.
 */
module Pool {
  import opened Results

  // Workers are named by consecutive numbers.
  type Worker = nat

  datatype FunctionId = FunctionId(id: string)
  const NO_FUNCTION := FunctionId("")

  datatype Lists = Lists(undeployed: seq<Worker>, deployed: seq<Worker>, running: seq<Worker>)

  function Without<T>(s: seq<T>, i: nat): (r: seq<T>)
    requires i < |s|
    ensures |r| == |s| - 1
  {
    s[..i] + s[i + 1..]
  }

  /** The index of the first occurrence, or |s|. */
  function IndexOf(s: seq<Worker>, w: Worker): (i: nat)
    ensures i <= |s|
    ensures i < |s| ==> s[i] == w && w !in s[..i]
    ensures i == |s| <==> w !in s
  {
    if s == [] then 0
    else if s[0] == w then 0
    else
      var i := 1 + IndexOf(s[1..], w);
      assert s == [s[0]] + s[1..];
      assert i <= |s| && s[..i] == [s[0]] + s[1..][..i - 1];
      i
  }

  /** The first deployed worker that holds the function, or |deployed|. */
  function Holder(deployed: seq<Worker>, functions: map<Worker, FunctionId>, f: FunctionId): (i: nat)
    ensures i <= |deployed|
    ensures i < |deployed| ==> deployed[i] in functions && functions[deployed[i]] == f
    ensures forall j :: 0 <= j < i ==> !(deployed[j] in functions && functions[deployed[j]] == f)
  {
    if deployed == [] then 0
    else if deployed[0] in functions && functions[deployed[0]] == f then 0
    else
      var i := Holder(deployed[1..], functions, f);
      assert forall j :: 0 < j <= i ==> deployed[j] == deployed[1..][j - 1];
      1 + i
  }

  /** RunDeployedFunction: takes the first deployed worker that holds f. */
  function TakeDeployed(l: Lists, i: nat): Lists
    requires i < |l.deployed|
  {
    l.(deployed := Without(l.deployed, i), running := l.running + [l.deployed[i]])
  }

  /** RunUndeployed: takes the worker that has waited longest. */
  function TakeUndeployed(l: Lists): Lists
    requires l.undeployed != []
  {
    l.(undeployed := l.undeployed[1..], running := l.running + [l.undeployed[0]])
  }

  /** RunComplete: when the name is not found, index 0 is taken. */
  function Complete(l: Lists, name: Worker): Lists
    requires l.running != []
  {
    var i := IndexOf(l.running, name);
    l.(running := Without(l.running, if i < |l.running| then i else 0), deployed := l.deployed + [name])
  }

  /** ForceDecomission and a decommission timer: takes a deployed worker out to restore it. */
  function Evict(l: Lists, i: nat): Lists
    requires i < |l.deployed|
  {
    l.(deployed := Without(l.deployed, i))
  }

  /** After a successful restore. */
  function GiveBack(l: Lists, name: Worker): Lists {
    l.(undeployed := l.undeployed + [name])
  }

  datatype TimerVerdict = Restore | Stop | Retry

  /** What a decommission timer finds when the idle time of its worker has passed. */
  function Verdict(l: Lists, name: Worker): TimerVerdict {
    if name in l.deployed then Restore
    else if name in l.undeployed then Stop
    else Retry
  }

  class Scheduler {
    var undeployed: seq<Worker>
    var deployed: seq<Worker>
    var running: seq<Worker>
    var functions: map<Worker, FunctionId>

    ghost function Now(): Lists
      reads this
    {
      Lists(undeployed, deployed, running)
    }

    constructor (workers: seq<Worker>)
      ensures Now() == Lists(workers, [], [])
      ensures forall w :: w in workers ==> w in functions && functions[w] == NO_FUNCTION
    {
      undeployed := workers;
      deployed := [];
      running := [];
      functions := map w | w in workers :: NO_FUNCTION;
    }

    method RunDeployedFunction(f: FunctionId) returns (name: Option<Worker>)
      modifies this`deployed, this`running
      ensures var i := Holder(old(deployed), functions, f);
              if i < |old(deployed)| then name == Some(old(deployed)[i]) && Now() == TakeDeployed(old(Now()), i)
              else name == None && Now() == old(Now())
    {
      var i := 0;
      while i < |deployed|
        invariant 0 <= i <= |deployed|
        invariant Now() == old(Now())
        invariant Holder(deployed, functions, f) == i + Holder(deployed[i..], functions, f)
      {
        var d := deployed[i];
        if d in functions && functions[d] == f {
          deployed := deployed[..i] + deployed[i + 1..];
          running := running + [d];
          return Some(d);
        }
        assert deployed[i..][1..] == deployed[i + 1..];
        i := i + 1;
      }
      return None;
    }

    method RunUndeployed() returns (name: Worker)
      requires undeployed != []
      modifies this`undeployed, this`running
      ensures name == old(undeployed)[0] && Now() == TakeUndeployed(old(Now()))
    {
      name, undeployed := undeployed[0], undeployed[1..];
      running := running + [name];
    }

    method RunComplete(name: Worker)
      requires running != []
      modifies this`running, this`deployed
      ensures Now() == Complete(old(Now()), name)
    {
      var nameIndex := 0;
      var i := 0;
      while i < |running|
        invariant 0 <= i <= |running|
        invariant nameIndex == 0
        invariant IndexOf(running, name) == i + IndexOf(running[i..], name)
      {
        if running[i] == name {
          nameIndex := i;
          break;
        }
        assert running[i..][1..] == running[i + 1..];
        i := i + 1;
      }
      running := running[..nameIndex] + running[nameIndex + 1..];
      deployed := deployed + [name];
    }

    /** The critical section of a decommission timer. */
    method TimerSection(name: Worker) returns (verdict: TimerVerdict)
      modifies this`deployed
      ensures verdict == Verdict(old(Now()), name)
      ensures Now() == if verdict == Restore then Evict(old(Now()), IndexOf(old(deployed), name)) else old(Now())
    {
      var nameIndex := FindIn(deployed, name);
      if nameIndex < 0 {
        nameIndex := FindIn(undeployed, name);
        return if nameIndex < 0 then Retry else Stop;
      }
      deployed := deployed[..nameIndex] + deployed[nameIndex + 1..];
      return Restore;
    }

    static method FindIn(s: seq<Worker>, name: Worker) returns (nameIndex: int)
      ensures nameIndex == if name in s then IndexOf(s, name) else -1
    {
      nameIndex := -1;
      var i := 0;
      while i < |s|
        invariant 0 <= i <= |s|
        invariant IndexOf(s, name) == i + IndexOf(s[i..], name)
        invariant nameIndex == -1
      {
        if s[i] == name {
          nameIndex := i;
          return;
        }
        assert s[i..][1..] == s[i + 1..];
        i := i + 1;
      }
    }

    /** The first critical section of ForceDecomission; nothing deployed means try again later. */
    method TakeVictim() returns (victim: Option<Worker>)
      modifies this`deployed
      ensures if old(deployed) == [] then victim == None && Now() == old(Now())
              else victim == Some(old(deployed)[0]) && Now() == Evict(old(Now()), 0)
    {
      if |deployed| <= 0 {
        return None;
      }
      var toDecommission := deployed[0];
      deployed := deployed[1..];
      return Some(toDecommission);
    }

    method Return(name: Worker)
      modifies this`undeployed
      ensures Now() == GiveBack(old(Now()), name)
    {
      undeployed := undeployed + [name];
    }

    /** Run up to the point where it has a worker, when no other goroutine interferes. */
    method Acquire(f: FunctionId, restorable: set<Worker>) returns (name: Worker, cold: bool, evictions: nat)
      requires Plan(Now(), functions, f, restorable).Some?
      modifies this`undeployed, this`deployed, this`running
      ensures Some(Outcome(name, cold, evictions, Now())) == Plan(old(Now()), functions, f, restorable)
      decreases |deployed|
    {
      hide Plan, Holder, TakeDeployed, TakeUndeployed;
      PlanIs(Now(), functions, f, restorable);
      name, cold, evictions := 0, false, 0;
      var taken := RunDeployedFunction(f);
      if taken.Some? {
        return taken.value, false, 0;
      }
      if |undeployed| > 0 {
        name := RunUndeployed();
        return name, true, 0;
      }
      var victim := TakeVictim();
      if victim.Some? {
        if victim.value in restorable {
          Return(victim.value);
        }
        name, cold, evictions := Acquire(f, restorable);
        return name, cold, evictions + 1;
      }
      assert false;
    }
  }

  // ----- Run without interference -----

  datatype Outcome = Outcome(name: Worker, cold: bool, evictions: nat, lists: Lists)

  /** One forced eviction; workers outside restorable are the ones whose restore fails, which
      drops them. */
  function ForceOne(l: Lists, restorable: set<Worker>): Lists
    requires l.deployed != []
  {
    var w := l.deployed[0];
    if w in restorable then GiveBack(Evict(l, 0), w) else Evict(l, 0)
  }

  /** What Run comes by: each turn finds a worker or uses up a deployed one. None: it spins. */
  function Plan(l: Lists, functions: map<Worker, FunctionId>, f: FunctionId, restorable: set<Worker>): Option<Outcome>
    decreases |l.deployed|
  {
    var i := Holder(l.deployed, functions, f);
    if i < |l.deployed| then Some(Outcome(l.deployed[i], false, 0, TakeDeployed(l, i)))
    else if l.undeployed != [] then Some(Outcome(l.undeployed[0], true, 0, TakeUndeployed(l)))
    else if l.deployed == [] then None
    else
      var later := Plan(ForceOne(l, restorable), functions, f, restorable);
      if later.None? then None else Some(later.value.(evictions := later.value.evictions + 1))
  }

  /** Somebody is undeployed, or a deployed worker holds the function or can be restored. */
  predicate Reachable(l: Lists, functions: map<Worker, FunctionId>, f: FunctionId, restorable: set<Worker>) {
    || l.undeployed != []
    || exists i :: 0 <= i < |l.deployed| && Useful(l.deployed[i], functions, f, restorable)
  }

  predicate Useful(w: Worker, functions: map<Worker, FunctionId>, f: FunctionId, restorable: set<Worker>) {
    w in restorable || (w in functions && functions[w] == f)
  }

  /** Run ends exactly when a worker is within reach. */
  lemma {:induction false} RunEndsIffReachable(l: Lists, functions: map<Worker, FunctionId>, f: FunctionId,
      restorable: set<Worker>)
    ensures Plan(l, functions, f, restorable).Some? <==> Reachable(l, functions, f, restorable)
    decreases |l.deployed|
  {
    hide Plan, Holder, TakeDeployed, TakeUndeployed, Reachable;
    PlanIs(l, functions, f, restorable);
    if Holder(l.deployed, functions, f) < |l.deployed| || l.undeployed != [] {
      WithinReach(l, functions, f, restorable);
    } else if l.deployed != [] {
      RunEndsIffReachable(ForceOne(l, restorable), functions, f, restorable);
      WithinReachLater(l, functions, f, restorable);
    } else {
      NothingWithinReach(l, functions, f, restorable);
    }
  }

  lemma WithinReach(l: Lists, functions: map<Worker, FunctionId>, f: FunctionId, restorable: set<Worker>)
    requires Holder(l.deployed, functions, f) < |l.deployed| || l.undeployed != []
    ensures Reachable(l, functions, f, restorable)
  {
    var i := Holder(l.deployed, functions, f);
    assert i < |l.deployed| ==> Useful(l.deployed[i], functions, f, restorable);
  }

  lemma NothingWithinReach(l: Lists, functions: map<Worker, FunctionId>, f: FunctionId, restorable: set<Worker>)
    requires l.deployed == [] && l.undeployed == []
    ensures !Reachable(l, functions, f, restorable)
  {
  }

  /** Taking out the first deployed worker, which does not hold the function, brings nothing closer
      and puts nothing out of reach. */
  lemma WithinReachLater(l: Lists, functions: map<Worker, FunctionId>, f: FunctionId, restorable: set<Worker>)
    requires Holder(l.deployed, functions, f) == |l.deployed| && l.undeployed == [] && l.deployed != []
    ensures Reachable(ForceOne(l, restorable), functions, f, restorable) <==> Reachable(l, functions, f, restorable)
  {
    var m := ForceOne(l, restorable);
    assert m.deployed == l.deployed[1..];
    if j :| 0 <= j < |l.deployed| && Useful(l.deployed[j], functions, f, restorable) {
      assert j > 0 ==> m.deployed[j - 1] == l.deployed[j];
    }
    if j :| 0 <= j < |m.deployed| && Useful(m.deployed[j], functions, f, restorable) {
      assert l.deployed[j + 1] == m.deployed[j];
    }
  }

  /** At most one eviction for each deployed worker, in list order, up to the first worker that
      can be restored; a worker that was deployed with the function needs none. */
  predicate InTurn(l: Lists, functions: map<Worker, FunctionId>, f: FunctionId, restorable: set<Worker>, o: Outcome) {
    && o.evictions <= |l.deployed|
    && o.lists.running == l.running + [o.name]
    && (!o.cold ==> o.evictions == 0 && o.name in functions && functions[o.name] == f)
    && (o.evictions > 0 ==> o.name == l.deployed[o.evictions - 1] && o.name in restorable
                            && o.lists.undeployed == [] && o.lists.deployed == l.deployed[o.evictions..])
    && (forall i :: 0 <= i < o.evictions - 1 ==> l.deployed[i] !in restorable)
  }

  lemma {:induction false} RunEvictsInOrder(l: Lists, functions: map<Worker, FunctionId>, f: FunctionId,
      restorable: set<Worker>)
    requires Plan(l, functions, f, restorable).Some?
    ensures InTurn(l, functions, f, restorable, Plan(l, functions, f, restorable).value)
    decreases |l.deployed|
  {
    hide Plan, Holder, TakeDeployed, TakeUndeployed, InTurn;
    PlanIs(l, functions, f, restorable);
    if Holder(l.deployed, functions, f) == |l.deployed| && l.undeployed == [] {
      var m := ForceOne(l, restorable);
      RunEvictsInOrder(m, functions, f, restorable);
      NoHolderInTail(l.deployed, functions, f);
      assert m.deployed == l.deployed[1..];
      PlanIs(m, functions, f, restorable);
      EvictedInTurn(l, functions, f, restorable, Plan(m, functions, f, restorable).value);
    } else {
      FoundInTurn(l, functions, f, restorable);
    }
  }

  lemma FoundInTurn(l: Lists, functions: map<Worker, FunctionId>, f: FunctionId, restorable: set<Worker>)
    ensures var i := Holder(l.deployed, functions, f);
            if i < |l.deployed| then
              InTurn(l, functions, f, restorable, Outcome(l.deployed[i], false, 0, TakeDeployed(l, i)))
            else l.undeployed != [] ==>
              InTurn(l, functions, f, restorable, Outcome(l.undeployed[0], true, 0, TakeUndeployed(l)))
  {
  }

  /** What holds of the rest of the run holds of the whole of it. */
  lemma EvictedInTurn(l: Lists, functions: map<Worker, FunctionId>, f: FunctionId, restorable: set<Worker>, o: Outcome)
    requires l.deployed != [] && l.undeployed == [] && InTurn(ForceOne(l, restorable), functions, f, restorable, o)
    requires var m := ForceOne(l, restorable);
             o.evictions == 0 ==>
               m.undeployed != [] && o.cold && o.name == m.undeployed[0] && o.lists == TakeUndeployed(m)
    requires o.evictions > 0 ==> ForceOne(l, restorable).undeployed == []
    ensures InTurn(l, functions, f, restorable, o.(evictions := o.evictions + 1))
  {
    hide InTurn, Useful;
    if o.evictions == 0 {
      FirstInTurn(l, functions, f, restorable, o);
    } else {
      LaterInTurn(l, functions, f, restorable, o);
    }
  }

  lemma FirstInTurn(l: Lists, functions: map<Worker, FunctionId>, f: FunctionId, restorable: set<Worker>, o: Outcome)
    requires l.deployed != [] && l.undeployed == [] && o.evictions == 0
    requires var m := ForceOne(l, restorable);
             m.undeployed != [] && o.cold && o.name == m.undeployed[0] && o.lists == TakeUndeployed(m)
    ensures InTurn(l, functions, f, restorable, o.(evictions := 1))
  {
    assert ForceOne(l, restorable).deployed == l.deployed[1..];
  }

  lemma ForceOneIs(l: Lists, restorable: set<Worker>)
    requires l.deployed != []
    ensures var m := ForceOne(l, restorable);
            && m.deployed == l.deployed[1..] && m.running == l.running
            && (m.undeployed == [] ==> l.deployed[0] !in restorable)
  {
  }

  lemma LaterInTurn(l: Lists, functions: map<Worker, FunctionId>, f: FunctionId, restorable: set<Worker>, o: Outcome)
    requires l.deployed != [] && o.evictions > 0 && InTurn(ForceOne(l, restorable), functions, f, restorable, o)
    requires ForceOne(l, restorable).undeployed == []
    ensures InTurn(l, functions, f, restorable, o.(evictions := o.evictions + 1))
  {
    var m := ForceOne(l, restorable);
    ForceOneIs(l, restorable);
    hide ForceOne;
    assert l.deployed[1..][o.evictions - 1] == l.deployed[o.evictions];
    assert l.deployed[1..][o.evictions..] == l.deployed[o.evictions + 1..];
    forall i | 0 <= i < o.evictions
      ensures l.deployed[i] !in restorable
    {
      assert i > 0 ==> m.deployed[i - 1] == l.deployed[i];
    }
  }

  /** Plan, one turn. */
  lemma PlanIs(l: Lists, functions: map<Worker, FunctionId>, f: FunctionId, restorable: set<Worker>)
    ensures var i := Holder(l.deployed, functions, f);
            Plan(l, functions, f, restorable) ==
            if i < |l.deployed| then Some(Outcome(l.deployed[i], false, 0, TakeDeployed(l, i)))
            else if l.undeployed != [] then Some(Outcome(l.undeployed[0], true, 0, TakeUndeployed(l)))
            else if l.deployed == [] then None
            else
              var later := Plan(ForceOne(l, restorable), functions, f, restorable);
              if later.None? then None else Some(later.value.(evictions := later.value.evictions + 1))
  {
  }

  lemma NoHolderInTail(s: seq<Worker>, functions: map<Worker, FunctionId>, f: FunctionId)
    requires s != [] && Holder(s, functions, f) == |s|
    ensures Holder(s[1..], functions, f) == |s[1..]|
  {
  }
}

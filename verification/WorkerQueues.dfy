/**
 Which worker a call gets and which one it evicts, told by the order in which workers were used
 and given back.
 */
module WorkerQueues {
  import opened Pool
  import opened Workers
  import opened WorkerSteps
  import opened WorkerTheorems

  // ----- Least recently used -----

  /** The workers whose runs complete, in that order. */
  ghost function Completions(s: Sys, actions: seq<Action>): seq<Worker>
    decreases actions
  {
    if actions == [] then []
    else CompletesNow(s, actions[0]) + Completions(Next(s, actions[0]), actions[1..])
  }

  function CompletesNow(s: Sys, a: Action): seq<Worker> {
    if a.Go? && a.t in s.threads && s.threads[a.t].Busy? && s.threads[a.t].stage.Completing?
       && s.threads[a.t].w in s.runtimes && s.lists.running != []
    then [s.threads[a.t].w] else []
  }

  /** The index of the last occurrence, or |h|. */
  function LastIndex(h: seq<Worker>, w: Worker): (i: nat)
    ensures i <= |h|
    ensures i < |h| ==> h[i] == w && w !in h[i + 1..]
    ensures i == |h| <==> w !in h
  {
    if h == [] then 0
    else if h[|h| - 1] == w then |h| - 1
    else
      var i := LastIndex(h[..|h| - 1], w);
      if i == |h| - 1 then |h| else i
  }

  /** The clock counts completions, and the times are those of the last ones. */
  ghost predicate Timed(s: Sys, h: seq<Worker>) {
    && s.clock == |h|
    && forall w :: w in s.completedAt ==> w in h && s.completedAt[w] == LastIndex(h, w)
  }

  lemma BusyTimes(s: Sys, t: nat)
    requires t in s.threads && s.threads[t].Busy?
    ensures var s' := BusyStep(s, t, s.threads[t]);
            if CompletesNow(s, Go(t, true)) == [] then SameTimes(s, s')
            else s'.clock == s.clock + 1 && s'.completedAt == s.completedAt[s.threads[t].w := s.clock]
  {
    hide Complete, Receive, Send;
  }

  lemma OtherTimes(s: Sys, t: nat, good: bool)
    requires t in s.threads && !s.threads[t].Busy?
    ensures SameTimes(s, GoStep(s, t, good))
  {
    hide Holder, TakeDeployed, TakeUndeployed, Evict, GiveBack, Verdict, IndexOf, BusyStep, RestoreRuntime, Continue;
  }

  lemma TimedBy(s: Sys, s': Sys, h: seq<Worker>, now: seq<Worker>, w: Worker)
    requires Timed(s, h)
    requires now == [] || now == [w]
    requires now == [] ==> SameTimes(s, s')
    requires now != [] ==> s'.clock == s.clock + 1 && s'.completedAt == s.completedAt[w := s.clock]
    ensures Timed(s', h + now)
  {
    hide LastIndex;
    if now == [] {
      assert h + [] == h;
    } else {
      forall x | x in s'.completedAt
        ensures x in h + [w] && s'.completedAt[x] == LastIndex(h + [w], x)
      {
        LastOfAppended(h, w, x);
        assert (h + [w])[|h|] == w;
      }
    }
  }

  lemma TimedNext(s: Sys, h: seq<Worker>, a: Action)
    requires Timed(s, h)
    ensures Timed(Next(s, a), h + CompletesNow(s, a))
  {
    hide GoStep, LastIndex;
    assert h + [] == h;
    if a.Go? && a.t in s.threads && s.threads[a.t].Busy? {
      BusyTimes(s, a.t);
      assert Next(s, a) == BusyStep(s, a.t, s.threads[a.t]) by {
        BusyGoes(s, a.t, a.good);
        assert a == Go(a.t, a.good);
      }
      assert CompletesNow(s, a) == CompletesNow(s, Go(a.t, true));
      TimedBy(s, BusyStep(s, a.t, s.threads[a.t]), h, CompletesNow(s, a), s.threads[a.t].w);
    } else if a.Go? && a.t in s.threads {
      OtherTimes(s, a.t, a.good);
    } else if a.Go? {
      GoNowhere(s, a.t, a.good);
    }
  }

  lemma LastOfAppended(h: seq<Worker>, w: Worker, x: Worker)
    ensures LastIndex(h + [w], x) == if x == w then |h| else if x in h then LastIndex(h, x) else |h| + 1
  {
    assert (h + [w])[..|h|] == h;
  }

  lemma {:induction false} TimedRun(s: Sys, h: seq<Worker>, actions: seq<Action>)
    requires Timed(s, h)
    ensures Timed(Run(s, actions), h + Completions(s, actions))
    decreases actions
  {
    hide Next, Timed, CompletesNow;
    if actions == [] {
      assert h + [] == h;
    } else {
      var now := CompletesNow(s, actions[0]);
      TimedNext(s, h, actions[0]);
      TimedRun(Next(s, actions[0]), h + now, actions[1..]);
      assert h + now + Completions(Next(s, actions[0]), actions[1..]) == h + Completions(s, actions);
    }
  }

  /** The deployed list is in the order of last completions, whatever timers and re-runs came
      between. */
  lemma LeastRecentlyUsedFirst(s: Sys, actions: seq<Action>)
    requires IsInitial(s)
    ensures var e, h := Run(s, actions), Completions(s, actions);
            && (forall w :: w in e.lists.deployed ==> w in h)
            && (forall i, j :: 0 <= i < j < |e.lists.deployed| ==>
                  LastIndex(h, e.lists.deployed[i]) < LastIndex(h, e.lists.deployed[j]))
  {
    InitialInv(s);
    RunInv(s, actions);
    assert Timed(s, []);
    TimedRun(s, [], actions);
    assert [] + Completions(s, actions) == Completions(s, actions);
    hide Run, Completions, LastIndex, Listed, WorkerOk, ThreadOk;
  }

  /** w is the one of ws that came last in h longest ago. */
  ghost predicate Oldest(h: seq<Worker>, w: Worker, ws: set<Worker>) {
    w in ws && w in h && forall v :: v in ws && v != w ==> v in h && LastIndex(h, w) < LastIndex(h, v)
  }

  ghost function Members(l: seq<Worker>): set<Worker> {
    set w | w in l
  }

  lemma MembersWithout(l: seq<Worker>, i: nat)
    requires i < |l| && NoDup(l)
    ensures Members(Without(l, i)) == Members(l) - {l[i]}
  {
    WithoutKeeps(l, i);
  }

  lemma MembersWithOneMore(l: seq<Worker>, w: Worker)
    ensures Members(l + [w]) == Members(l) + {w}
  {
  }

  /** ForceDecomission evicts the deployed worker whose last run completed longest ago, and no
      other; it waits while there is none. */
  lemma ForcingEvictsTheLeastRecentlyUsed(s: Sys, actions: seq<Action>, t: nat, good: bool)
    requires IsInitial(s) && t in Run(s, actions).threads && Run(s, actions).threads[t].Forcing?
    ensures var e, h := Run(s, actions), Completions(s, actions);
            var th, n := e.threads[t], Next(e, Go(t, good));
            if e.lists.deployed == [] then n == e
            else
              && t in n.threads && n.threads[t].Restoring? && n.threads[t].after == Again(th.doc, th.data)
              && var w := n.threads[t].w;
                 && Oldest(h, w, Members(e.lists.deployed))
                 && Members(n.lists.deployed) == Members(e.lists.deployed) - {w}
                 && n.lists.undeployed == e.lists.undeployed && n.lists.running == e.lists.running
  {
    var e, h := Run(s, actions), Completions(s, actions);
    LeastRecentlyUsedFirst(s, actions);
    InitialInv(s);
    RunInv(s, actions);
    hide Run, Completions, LastIndex, InOrder, WorkerOk, ThreadOk, IsInitial, Oldest, Members, NoDup;
    ForcingGoes(e, t, good);
    if e.lists.deployed != [] {
      FirstIsOldest(e.lists.deployed, h);
      FirstIs(e.lists.deployed);
      MembersWithout(e.lists.deployed, 0);
    }
  }

  lemma ForcingGoes(e: Sys, t: nat, good: bool)
    requires t in e.threads && e.threads[t].Forcing?
    ensures Next(e, Go(t, good)) == ForcingStep(e, t, e.threads[t].doc, e.threads[t].data)
  {
  }

  lemma FirstIsOldest(l: seq<Worker>, h: seq<Worker>)
    requires l != [] && (forall w :: w in l ==> w in h)
    requires forall i, j :: 0 <= i < j < |l| ==> LastIndex(h, l[i]) < LastIndex(h, l[j])
    ensures Oldest(h, l[0], Members(l))
  {
    hide LastIndex;
    forall v | v in Members(l) && v != l[0]
      ensures v in h && LastIndex(h, l[0]) < LastIndex(h, v)
    {
      var j :| 0 <= j < |l| && l[j] == v;
    }
  }

  ghost function Holders(e: Sys, id: FunctionId): set<Worker> {
    set w | w in e.lists.deployed && w in e.functions && e.functions[w] == id
  }

  /** The deployed list is in the order of h. */
  ghost predicate InOrderOf(l: seq<Worker>, h: seq<Worker>) {
    && (forall w :: w in l ==> w in h)
    && (forall i, j :: 0 <= i < j < |l| ==> LastIndex(h, l[i]) < LastIndex(h, l[j]))
  }

  /** What a call does that has just started, or starts over. */
  ghost predicate TakesAHolder(e: Sys, n: Sys, h: seq<Worker>, t: nat, doc: Doc, data: Data) {
    var holders := Holders(e, doc.id);
    && t in n.threads
    && if holders == {} then n.threads[t] == Missed(doc, data) && n.lists == e.lists
       else
         && n.threads[t].Busy?
         && var w := n.threads[t].w;
            && n.threads[t] == Busy(w, doc, data, false, Ask) && Oldest(h, w, holders)
            && Members(n.lists.deployed) == Members(e.lists.deployed) - {w}
            && Members(n.lists.running) == Members(e.lists.running) + {w}
            && n.lists.undeployed == e.lists.undeployed
  }

  /** A call takes, of the deployed workers that hold its function, the one whose last run
      completed longest ago; it misses exactly when there is none. */
  lemma StartTakesAHolder(s: Sys, actions: seq<Action>, t: nat, good: bool)
    requires IsInitial(s) && t in Run(s, actions).threads && Run(s, actions).threads[t].Start?
    ensures var e := Run(s, actions);
            TakesAHolder(e, Next(e, Go(t, good)), Completions(s, actions), t, e.threads[t].doc, e.threads[t].data)
  {
    var e, h := Run(s, actions), Completions(s, actions);
    LeastRecentlyUsedFirst(s, actions);
    InitialInv(s);
    RunInv(s, actions);
    DeployedHaveFunctions(e);
    assert InOrderOf(e.lists.deployed, h);
    hide *;
    StartGoes(e, t, good);
    StartTakes(e, h, t, e.threads[t].doc, e.threads[t].data);
  }

  lemma StartTakes(e: Sys, h: seq<Worker>, t: nat, doc: Doc, data: Data)
    requires NoDup(e.lists.deployed) && InOrderOf(e.lists.deployed, h)
    requires forall w :: w in e.lists.deployed ==> w in e.functions
    ensures TakesAHolder(e, StartStep(e, t, doc, data), h, t, doc, data)
  {
    hide Holder, Oldest, Holders, NoDup, InOrderOf, Members;
    var i := Holder(e.lists.deployed, e.functions, doc.id);
    HolderIsOldest(e, h, doc.id);
    if i < |e.lists.deployed| {
      MembersWithout(e.lists.deployed, i);
      MembersWithOneMore(e.lists.running, e.lists.deployed[i]);
    }
  }

  lemma StartGoes(e: Sys, t: nat, good: bool)
    requires t in e.threads && e.threads[t].Start?
    ensures Next(e, Go(t, good)) == StartStep(e, t, e.threads[t].doc, e.threads[t].data)
  {
  }

  lemma DeployedHaveFunctions(e: Sys)
    requires Inv(e)
    ensures NoDup(e.lists.deployed) && forall w :: w in e.lists.deployed ==> w in e.functions
  {
    hide WorkerOk, ThreadOk, InOrder;
  }

  lemma HolderIsOldest(e: Sys, h: seq<Worker>, id: FunctionId)
    requires InOrderOf(e.lists.deployed, h) && forall w :: w in e.lists.deployed ==> w in e.functions
    ensures var i := Holder(e.lists.deployed, e.functions, id);
            if i < |e.lists.deployed| then Oldest(h, e.lists.deployed[i], Holders(e, id)) && Holders(e, id) != {}
            else Holders(e, id) == {}
  {
    hide LastIndex, Holder;
    var l := e.lists.deployed;
    var i := Holder(l, e.functions, id);
    forall v | v in Holders(e, id)
      ensures i < |l| && (v != l[i] ==> LastIndex(h, l[i]) < LastIndex(h, v))
    {
      var j :| 0 <= j < |l| && l[j] == v;
    }
    if i < |l| {
      assert l[i] in Holders(e, id);
    }
  }

  // ----- First in, first out -----

  /** The workers that are given back, in that order. */
  ghost function Returns(s: Sys, actions: seq<Action>): seq<Worker>
    decreases actions
  {
    if actions == [] then [] else ReturnsNow(s, actions[0]) + Returns(Next(s, actions[0]), actions[1..])
  }

  function ReturnsNow(s: Sys, a: Action): seq<Worker> {
    if a.Go? && a.t in s.threads && s.threads[a.t].Returning? then [s.threads[a.t].w] else []
  }

  lemma AppendInOrder(l: seq<Worker>, h: seq<Worker>, w: Worker)
    requires InOrderOf(l, h) && w !in l
    ensures InOrderOf(l + [w], h + [w])
  {
    hide LastIndex;
    forall x | x in l + [w]
      ensures x in h + [w] && LastIndex(h + [w], x) == if x == w then |h| else LastIndex(h, x)
    {
      LastOfAppended(h, w, x);
      assert (h + [w])[|h|] == w;
    }
  }

  lemma RestInOrder(l: seq<Worker>, h: seq<Worker>)
    requires l != [] && InOrderOf(l, h)
    ensures InOrderOf(l[1..], h)
  {
    hide LastIndex;
    var r := l[1..];
    assert forall k :: 0 <= k < |r| ==> r[k] == l[k + 1];
  }

  lemma BusyLeavesUndeployed(s: Sys, t: nat)
    requires t in s.threads && s.threads[t].Busy?
    ensures BusyStep(s, t, s.threads[t]).lists.undeployed == s.lists.undeployed
  {
    hide Receive, Send, IndexOf, Without;
  }

  lemma UndeployedStays(s: Sys, t: nat, good: bool)
    requires t in s.threads && !s.threads[t].Returning? && !s.threads[t].Missed?
    ensures GoStep(s, t, good).lists.undeployed == s.lists.undeployed
  {
    hide Holder, IndexOf, Verdict, BusyStep, RestoreRuntime;
    if s.threads[t].Busy? {
      BusyLeavesUndeployed(s, t);
    }
  }

  lemma QueuedNext(s: Sys, g: seq<Worker>, a: Action)
    requires Inv(s) && InOrderOf(s.lists.undeployed, g)
    ensures InOrderOf(Next(s, a).lists.undeployed, g + ReturnsNow(s, a))
  {
    hide InOrderOf, GoStep, Inv;
    assert g + [] == g;
    if a.Go? && a.t in s.threads {
      if s.threads[a.t].Returning? {
        ReturningGoes(s, a.t, a.good);
        AppendInOrder(s.lists.undeployed, g, s.threads[a.t].w);
      } else if s.threads[a.t].Missed? {
        MissedGoes(s, a.t, a.good);
        if s.lists.undeployed != [] { RestInOrder(s.lists.undeployed, g); }
      } else {
        UndeployedStays(s, a.t, a.good);
      }
    } else if a.Go? {
      GoNowhere(s, a.t, a.good);
    }
  }

  lemma ReturningGoes(s: Sys, t: nat, good: bool)
    requires Inv(s) && t in s.threads && s.threads[t].Returning?
    ensures GoStep(s, t, good).lists.undeployed == s.lists.undeployed + [s.threads[t].w]
    ensures s.threads[t].w !in s.lists.undeployed
  {
    hide InOrder, WorkerOk;
    assert ThreadOk(s, t);
  }

  lemma MissedGoes(s: Sys, t: nat, good: bool)
    requires t in s.threads && s.threads[t].Missed?
    ensures GoStep(s, t, good) == MissedStep(s, t, s.threads[t].doc, s.threads[t].data)
    ensures GoStep(s, t, good).lists.undeployed
         == if s.lists.undeployed == [] then [] else s.lists.undeployed[1..]
  {
  }

  lemma {:induction false} QueuedRun(s: Sys, g: seq<Worker>, actions: seq<Action>)
    requires Inv(s) && InOrderOf(s.lists.undeployed, g)
    ensures InOrderOf(Run(s, actions).lists.undeployed, g + Returns(s, actions))
    decreases actions
  {
    hide Next, Inv, InOrderOf, ReturnsNow;
    if actions == [] {
      assert g + [] == g;
    } else {
      var now := ReturnsNow(s, actions[0]);
      NextKeeps(s, actions[0]);
      QueuedNext(s, g, actions[0]);
      QueuedRun(Next(s, actions[0]), g + now, actions[1..]);
      assert g + now + Returns(Next(s, actions[0]), actions[1..]) == g + Returns(s, actions);
    }
  }

  lemma InitialQueue(l: seq<Worker>)
    requires NoDup(l)
    ensures InOrderOf(l, l)
  {
    hide LastIndex;
    forall i | 0 <= i < |l|
      ensures LastIndex(l, l[i]) == i
    {
      var k := LastIndex(l, l[i]);
      assert l[k] == l[i];
    }
  }

  /** What a call does that has missed. */
  ghost predicate TakesTheOldest(e: Sys, n: Sys, g: seq<Worker>, t: nat, doc: Doc, data: Data) {
    && t in n.threads
    && if e.lists.undeployed == [] then n.threads[t] == Forcing(doc, data) && n.lists == e.lists
       else
         && n.threads[t].Busy?
         && var w := n.threads[t].w;
            && n.threads[t] == Busy(w, doc, data, true, Load) && Oldest(g, w, Members(e.lists.undeployed))
            && Members(n.lists.undeployed) == Members(e.lists.undeployed) - {w}
            && Members(n.lists.running) == Members(e.lists.running) + {w}
            && n.lists.deployed == e.lists.deployed
  }

  /** A call that misses takes the worker that has been undeployed the longest, counting from the
      start or from when it was given back, and loads its function there. */
  lemma MissedTakesTheLongestUndeployed(s: Sys, actions: seq<Action>, t: nat, good: bool)
    requires IsInitial(s) && t in Run(s, actions).threads && Run(s, actions).threads[t].Missed?
    ensures var e := Run(s, actions);
            TakesTheOldest(e, Next(e, Go(t, good)), s.lists.undeployed + Returns(s, actions), t, e.threads[t].doc,
                e.threads[t].data)
  {
    var e, g := Run(s, actions), s.lists.undeployed + Returns(s, actions);
    InitialInv(s);
    RunInv(s, actions);
    InitialQueue(s.lists.undeployed);
    QueuedRun(s, s.lists.undeployed, actions);
    UndeployedOnce(e);
    hide *;
    MissedGoes(e, t, good);
    MissedTakes(e, g, t, e.threads[t].doc, e.threads[t].data);
    GoIsNext(e, t, good);
  }

  lemma GoIsNext(e: Sys, t: nat, good: bool)
    ensures Next(e, Go(t, good)) == GoStep(e, t, good)
  {
  }

  lemma MissedTakes(e: Sys, g: seq<Worker>, t: nat, doc: Doc, data: Data)
    requires NoDup(e.lists.undeployed) && InOrderOf(e.lists.undeployed, g)
    ensures TakesTheOldest(e, MissedStep(e, t, doc, data), g, t, doc, data)
  {
    if e.lists.undeployed != [] {
      FirstIsOldest(e.lists.undeployed, g);
      FirstIs(e.lists.undeployed);
      MembersWithout(e.lists.undeployed, 0);
      MembersWithOneMore(e.lists.running, e.lists.undeployed[0]);
    }
    hide Oldest, NoDup, InOrderOf, Members;
  }

  lemma UndeployedOnce(e: Sys)
    requires Inv(e)
    ensures NoDup(e.lists.undeployed)
  {
    hide WorkerOk, ThreadOk, InOrder;
  }
}

/**
 Every step keeps the invariant.
 */
module WorkerSteps {
  import opened Pool
  import opened Workers

  // ----- Lists -----

  lemma WithoutKeeps(s: seq<Worker>, i: nat)
    requires i < |s| && NoDup(s)
    ensures NoDup(Without(s, i))
    ensures forall x :: x in Without(s, i) <==> x in s && x != s[i]
  {
    var r := Without(s, i);
    forall x | x in s && x != s[i]
      ensures x in r
    {
      var k :| 0 <= k < |s| && s[k] == x;
      assert r[if k < i then k else k - 1] == x;
    }
    assert forall k :: 0 <= k < |r| ==> r[k] == s[if k < i then k else k + 1];
  }

  lemma AppendKeeps(s: seq<Worker>, x: Worker)
    requires NoDup(s) && x !in s
    ensures NoDup(s + [x])
    ensures forall y :: y in s + [x] <==> y in s || y == x
  {
  }

  lemma FirstIs(s: seq<Worker>)
    requires s != []
    ensures s[1..] == Without(s, 0)
  {
  }

  // ----- What a step leaves alone -----

  ghost predicate Owned(p: Place, t: nat) {
    p == Running(t) || p == BeingRestored(t)
  }

  ghost predicate KeepsWorkers(s: Sys, s': Sys) {
    SameWorkers(s) && SameWorkers(s') && s'.place.Keys == s.place.Keys
  }

  /** Nothing but thread t and the workers in ws is different. */
  ghost predicate Only(s: Sys, s': Sys, t: nat, ws: set<Worker>)
    requires KeepsWorkers(s, s')
  {
    && s.docs <= s'.docs
    && (forall u :: u != t ==> (u in s.threads <==> u in s'.threads))
    && (forall u :: u != t && u in s.threads ==> s'.threads[u] == s.threads[u])
    && (forall v :: v !in ws && v in s.place ==>
          s'.place[v] == s.place[v] && s'.runtimes[v] == s.runtimes[v] && s'.functions[v] == s.functions[v])
  }

  /** Thread t owns no worker outside ws, and no other thread owns one in ws. */
  ghost predicate Between(s: Sys, t: nat, ws: set<Worker>) {
    forall v, u :: v in s.place && Owned(s.place[v], u) ==> (v in ws <==> u == t)
  }

  lemma Frame(s: Sys, s': Sys, t: nat, ws: set<Worker>)
    requires Inv(s) && KeepsWorkers(s, s') && Only(s, s', t, ws) && Between(s, t, ws)
    requires forall w :: w in ws && w in s.place ==> WorkerOk(s', w)
    requires t in s'.threads ==> ThreadOk(s', t)
    requires Listed(s') && InOrder(s')
    ensures Inv(s')
  {
    hide StageOk, ThreadOk, WorkerOk, Listed, InOrder, Only, Between;
    forall v | v in s'.place
      ensures WorkerOk(s', v)
    {
      if v !in ws {
        WorkerStays(s, s', t, ws, v);
      }
    }
    forall u | u in s'.threads
      ensures ThreadOk(s', u)
    {
      if u != t {
        ThreadStays(s, s', t, ws, u);
      }
    }
  }

  lemma WorkerStays(s: Sys, s': Sys, t: nat, ws: set<Worker>, v: Worker)
    requires KeepsWorkers(s, s') && Only(s, s', t, ws) && Between(s, t, ws)
    requires v in s.place && v !in ws && WorkerOk(s, v)
    ensures WorkerOk(s', v)
  {
    match s.place[v]
    case Running(u) => assert Owned(s.place[v], u);
    case BeingRestored(u) => assert Owned(s.place[v], u);
    case _ =>
  }

  lemma ThreadStays(s: Sys, s': Sys, t: nat, ws: set<Worker>, u: nat)
    requires KeepsWorkers(s, s') && Only(s, s', t, ws) && Between(s, t, ws)
    requires u in s'.threads && u != t
    requires u in s.threads ==> ThreadOk(s, u)
    ensures ThreadOk(s', u)
  {
    match s.threads[u]
    case Busy(v, _, _, _, _) => assert Owned(s.place[v], u);
    case Stuck(v, _) => assert Owned(s.place[v], u);
    case Restoring(v, _) => assert Owned(s.place[v], u);
    case Returning(v, _) => assert Owned(s.place[v], u);
    case _ =>
  }

  predicate Owns(th: Thread) {
    th.Busy? || th.Stuck? || th.Restoring? || th.Returning?
  }

  /** A thread that owns no worker may touch one that is in a list. */
  lemma NoneOwned(s: Sys, t: nat, ws: set<Worker>)
    requires Inv(s)
    requires t in s.threads ==> !Owns(s.threads[t])
    requires forall w :: w in ws ==> w in s.place && (s.place[w].Undeployed? || s.place[w].Deployed?)
    ensures Between(s, t, ws)
  {
    forall v, u | v in s.place && Owned(s.place[v], u)
      ensures v in ws <==> u == t
    {
      assert WorkerOk(s, v);
    }
  }

  lemma OneOwned(s: Sys, t: nat)
    requires Inv(s) && t in s.threads && Owns(s.threads[t])
    ensures Between(s, t, {s.threads[t].w})
  {
    assert ThreadOk(s, t);
    forall v, u | v in s.place && Owned(s.place[v], u)
      ensures v in {s.threads[t].w} <==> u == t
    {
      assert WorkerOk(s, v);
    }
  }

  // ----- Steps that touch no worker -----

  lemma CallKeeps(s: Sys, t: nat, doc: Doc, data: Data)
    requires Inv(s) && t !in s.threads
    ensures Inv(Put(s, t, Start(doc, data)).(docs := s.docs + {doc}))
  {
    hide StageOk, WorkerOk;
    var s' := Put(s, t, Start(doc, data)).(docs := s.docs + {doc});
    NoneOwned(s, t, {});
    Frame(s, s', t, {});
  }

  /** A thread that owns nothing goes on to another stage in which it owns nothing. */
  lemma PutKeeps(s: Sys, t: nat, th: Thread)
    requires Inv(s) && !Owns(th)
    requires t in s.threads ==> !Owns(s.threads[t])
    requires ThreadOk(Put(s, t, th), t)
    ensures Inv(Put(s, t, th))
  {
    hide StageOk, WorkerOk, ThreadOk;
    NoneOwned(s, t, {});
    Frame(s, Put(s, t, th), t, {});
  }

  lemma SpawnKeeps(s: Sys, t: nat, timer: nat)
    requires Inv(s) && t in s.threads && s.threads[t].Spawning? && timer !in s.threads
    ensures Inv(Next(s, Spawn(t, timer)))
  {
    hide StageOk, WorkerOk, InOrder, Listed;
    var x := s.threads[t];
    assert ThreadOk(s, t);
    PutKeeps(s, t, Answer(x.doc, x.data, x.response));
    PutKeeps(Put(s, t, Answer(x.doc, x.data, x.response)), timer, Timer(x.w));
  }

  // ----- The lists after each critical section -----

  /** The place of w is p now, and nothing else moved. */
  ghost predicate Moved(s: Sys, s': Sys, w: Worker, p: Place) {
    w in s.place && s'.place == s.place[w := p]
  }

  ghost predicate SameTimes(s: Sys, s': Sys) {
    s'.completedAt == s.completedAt && s'.clock == s.clock
  }

  lemma DeployedTaken(s: Sys, s': Sys, i: nat, t: nat)
    requires Listed(s) && InOrder(s) && SameTimes(s, s')
    requires i < |s.lists.deployed|
    requires var w := s.lists.deployed[i];
             || (s'.lists == TakeDeployed(s.lists, i) && Moved(s, s', w, Running(t)))
             || (s'.lists == Evict(s.lists, i) && Moved(s, s', w, BeingRestored(t)))
    ensures Listed(s') && InOrder(s')
  {
    StillInOrder(s, s', i);
    hide InOrder, Listed, Moved;
    if s'.lists == Evict(s.lists, i) && Moved(s, s', s.lists.deployed[i], BeingRestored(t)) {
      EvictedTaken(s, s', i, t);
    } else {
      RunTaken(s, s', i, t);
    }
  }

  lemma EvictedTaken(s: Sys, s': Sys, i: nat, t: nat)
    requires Listed(s) && i < |s.lists.deployed|
    requires s'.lists == Evict(s.lists, i) && Moved(s, s', s.lists.deployed[i], BeingRestored(t))
    ensures Listed(s')
  {
    assert s.lists.deployed[i] in s.lists.deployed;
    WithoutKeeps(s.lists.deployed, i);
    hide Without, NoDup;
  }

  lemma RunTaken(s: Sys, s': Sys, i: nat, t: nat)
    requires Listed(s) && i < |s.lists.deployed|
    requires s'.lists == TakeDeployed(s.lists, i) && Moved(s, s', s.lists.deployed[i], Running(t))
    ensures Listed(s')
  {
    var w := s.lists.deployed[i];
    assert w in s.lists.deployed;
    WithoutKeeps(s.lists.deployed, i);
    AppendKeeps(s.lists.running, w);
    hide Without, NoDup;
  }

  lemma StillInOrder(s: Sys, s': Sys, i: nat)
    requires InOrder(s) && SameTimes(s, s')
    requires i < |s.lists.deployed| && s'.lists.deployed == Without(s.lists.deployed, i)
    ensures InOrder(s')
  {
    var r := s'.lists.deployed;
    assert forall k :: 0 <= k < |r| ==> r[k] == s.lists.deployed[if k < i then k else k + 1];
  }

  lemma UndeployedTaken(s: Sys, s': Sys, t: nat)
    requires Listed(s) && InOrder(s) && SameTimes(s, s')
    requires s.lists.undeployed != []
    requires s'.lists == TakeUndeployed(s.lists) && Moved(s, s', s.lists.undeployed[0], Running(t))
    ensures Listed(s') && InOrder(s')
  {
    var w := s.lists.undeployed[0];
    FirstIs(s.lists.undeployed);
    assert w in s.lists.undeployed;
    WithoutKeeps(s.lists.undeployed, 0);
    AppendKeeps(s.lists.running, w);
  }

  lemma Completed(s: Sys, s': Sys, w: Worker)
    requires Listed(s) && InOrder(s)
    requires w in s.place && s.place[w].Running? && s.lists.running != []
    requires s'.lists == Complete(s.lists, w) && Moved(s, s', w, Deployed)
    requires s'.completedAt == s.completedAt[w := s.clock] && s'.clock == s.clock + 1
    ensures Listed(s') && InOrder(s')
  {
    assert w in s.lists.running && w !in s.lists.deployed;
    WithoutKeeps(s.lists.running, IndexOf(s.lists.running, w));
    AppendKeeps(s.lists.deployed, w);
  }

  lemma GivenBack(s: Sys, s': Sys, w: Worker)
    requires Listed(s) && InOrder(s) && SameTimes(s, s')
    requires w in s.place && s.place[w].BeingRestored?
    requires s'.lists == GiveBack(s.lists, w) && Moved(s, s', w, Undeployed)
    ensures Listed(s') && InOrder(s')
  {
    AppendKeeps(s.lists.undeployed, w);
  }

  lemma NothingMoved(s: Sys, s': Sys)
    requires Listed(s) && InOrder(s) && SameTimes(s, s') && s'.lists == s.lists && s'.place == s.place
    ensures Listed(s') && InOrder(s')
  {
  }

  lemma DroppedFromNowhere(s: Sys, s': Sys, w: Worker)
    requires Listed(s) && InOrder(s) && SameTimes(s, s')
    requires w in s.place && s.place[w].BeingRestored?
    requires s'.lists == s.lists && Moved(s, s', w, Dropped)
    ensures Listed(s') && InOrder(s')
  {
  }

  // ----- Taking a worker -----

  /** What thread t and worker w are after a step that took w for t, and what did not change. */
  ghost predicate Step(s: Sys, s': Sys, t: nat, w: Worker) {
    && KeepsWorkers(s, s') && Only(s, s', t, {w})
    && w in s.place && WorkerOk(s', w) && t in s'.threads && ThreadOk(s', t)
  }

  lemma TakesDeployed(s: Sys, t: nat, doc: Doc, data: Data)
    requires Inv(s) && t in s.threads && s.threads[t] == Start(doc, data)
    requires Holder(s.lists.deployed, s.functions, doc.id) < |s.lists.deployed|
    ensures var w := s.lists.deployed[Holder(s.lists.deployed, s.functions, doc.id)];
            Step(s, StartStep(s, t, doc, data), t, w) && s.place[w].Deployed?
  {
    var w := s.lists.deployed[Holder(s.lists.deployed, s.functions, doc.id)];
    AskMayFollow(s, t, doc, data);
    hide Inv, StageOk, Holder, TakeDeployed, Step, Put, SameWorkers;
    ClaimIsStep(s, t, Busy(w, doc, data, false, Ask),
      TakeDeployed(s.lists, Holder(s.lists.deployed, s.functions, doc.id)));
  }

  lemma AskMayFollow(s: Sys, t: nat, doc: Doc, data: Data)
    requires Inv(s) && t in s.threads && s.threads[t] == Start(doc, data)
    requires Holder(s.lists.deployed, s.functions, doc.id) < |s.lists.deployed|
    ensures var w := s.lists.deployed[Holder(s.lists.deployed, s.functions, doc.id)];
            && SameWorkers(s) && w in s.place && s.place[w] == Deployed
            && StageOk(s.docs, Busy(w, doc, data, false, Ask), s.functions[w], s.runtimes[w])
  {
    hide InOrder, Serving;
    var w := s.lists.deployed[Holder(s.lists.deployed, s.functions, doc.id)];
    assert w in s.lists.deployed;
    hide Listed;
    assert WorkerOk(s, w) && ThreadOk(s, t);
  }

  /** A thread takes a worker. */
  lemma ClaimIsStep(s: Sys, t: nat, b: Thread, l: Lists)
    requires SameWorkers(s) && b.Busy? && b.w in s.place
    requires StageOk(s.docs, b, s.functions[b.w], s.runtimes[b.w])
    ensures Step(s, Put(s, t, b).(lists := l, place := s.place[b.w := Running(t)]), t, b.w)
  {
    hide StageOk;
  }

  lemma TakesUndeployed(s: Sys, t: nat, doc: Doc, data: Data)
    requires Inv(s) && t in s.threads && s.threads[t] == Missed(doc, data)
    requires s.lists.undeployed != []
    ensures Step(s, MissedStep(s, t, doc, data), t, s.lists.undeployed[0])
    ensures s.place[s.lists.undeployed[0]].Undeployed?
  {
    LoadMayFollow(s, t, doc, data);
    hide Inv, StageOk, TakeUndeployed, Step, Put, SameWorkers;
    ClaimIsStep(s, t, Busy(s.lists.undeployed[0], doc, data, true, Load), TakeUndeployed(s.lists));
  }

  lemma LoadMayFollow(s: Sys, t: nat, doc: Doc, data: Data)
    requires Inv(s) && t in s.threads && s.threads[t] == Missed(doc, data)
    requires s.lists.undeployed != []
    ensures var w := s.lists.undeployed[0];
            && SameWorkers(s) && w in s.place && s.place[w] == Undeployed
            && StageOk(s.docs, Busy(w, doc, data, true, Load), s.functions[w], s.runtimes[w])
  {
    hide InOrder;
    var w := s.lists.undeployed[0];
    assert w in s.lists.undeployed;
    hide Listed;
    assert WorkerOk(s, w) && ThreadOk(s, t);
  }

  lemma StartKeeps(s: Sys, t: nat, doc: Doc, data: Data)
    requires Inv(s) && t in s.threads && s.threads[t] == Start(doc, data)
    ensures Inv(StartStep(s, t, doc, data))
  {
    var i := Holder(s.lists.deployed, s.functions, doc.id);
    assert ThreadOk(s, t);
    if i < |s.lists.deployed| {
      hide StageOk, WorkerOk, ThreadOk, InOrder, Listed, Only;
      var w := s.lists.deployed[i];
      var s' := StartStep(s, t, doc, data);
      TakesDeployed(s, t, doc, data);
      DeployedTaken(s, s', i, t);
      NoneOwned(s, t, {w});
      Frame(s, s', t, {w});
    } else {
      PutKeeps(s, t, Missed(doc, data));
    }
  }

  lemma MissedKeeps(s: Sys, t: nat, doc: Doc, data: Data)
    requires Inv(s) && t in s.threads && s.threads[t] == Missed(doc, data)
    ensures Inv(MissedStep(s, t, doc, data))
  {
    assert ThreadOk(s, t);
    if s.lists.undeployed != [] {
      hide StageOk, WorkerOk, ThreadOk, InOrder, Listed, Only;
      var w := s.lists.undeployed[0];
      var s' := MissedStep(s, t, doc, data);
      TakesUndeployed(s, t, doc, data);
      UndeployedTaken(s, s', t);
      NoneOwned(s, t, {w});
      Frame(s, s', t, {w});
    } else {
      PutKeeps(s, t, Forcing(doc, data));
    }
  }

  lemma EvictKeeps(s: Sys, t: nat, i: nat, after: After)
    requires Inv(s) && t in s.threads && !Owns(s.threads[t])
    requires i < |s.lists.deployed| && AfterOk(s.docs, after)
    ensures Inv(EvictStep(s, t, i, after))
  {
    var w := s.lists.deployed[i];
    var s' := EvictStep(s, t, i, after);
    assert w in s.lists.deployed;
    assert WorkerOk(s, w) && WorkerOk(s', w) && ThreadOk(s', t);
    hide StageOk, WorkerOk, ThreadOk, InOrder, Listed;
    DeployedTaken(s, s', i, t);
    NoneOwned(s, t, {w});
    Frame(s, s', t, {w});
  }

  lemma ForcingKeeps(s: Sys, t: nat, doc: Doc, data: Data)
    requires Inv(s) && t in s.threads && s.threads[t] == Forcing(doc, data)
    ensures Inv(ForcingStep(s, t, doc, data))
  {
    assert ThreadOk(s, t);
    if s.lists.deployed != [] {
      EvictKeeps(s, t, 0, Again(doc, data));
    }
  }

  lemma TimerKeeps(s: Sys, t: nat, w: Worker, elapsed: bool)
    requires Inv(s) && t in s.threads && s.threads[t] == Timer(w)
    ensures Inv(TimerStep(s, t, w, elapsed))
  {
    if elapsed && Verdict(s.lists, w) == Restore {
      EvictKeeps(s, t, IndexOf(s.lists.deployed, w), TimerEnds);
    } else if elapsed && Verdict(s.lists, w) == Stop {
      PutKeeps(s, t, Finished);
    }
  }

  // ----- Restoring a worker and handing it back -----

  lemma Restores(s: Sys, t: nat, w: Worker, after: After, good: bool)
    requires Inv(s) && t in s.threads && s.threads[t] == Restoring(w, after)
    ensures Step(s, RestoringStep(s, t, w, after, good), t, w) && s.place[w] == BeingRestored(t)
  {
    hide InOrder, Listed, StageOk;
    assert ThreadOk(s, t);
    assert WorkerOk(s, w);
  }

  lemma Returns(s: Sys, t: nat, w: Worker, after: After)
    requires Inv(s) && t in s.threads && s.threads[t] == Returning(w, after)
    ensures Step(s, ReturningStep(s, t, w, after), t, w) && s.place[w] == BeingRestored(t)
  {
    hide InOrder, Listed, StageOk;
    assert ThreadOk(s, t);
    assert WorkerOk(s, w);
  }

  lemma RestoringKeeps(s: Sys, t: nat, w: Worker, after: After, good: bool)
    requires Inv(s) && t in s.threads && s.threads[t] == Restoring(w, after)
    ensures Inv(RestoringStep(s, t, w, after, good))
  {
    hide StageOk, WorkerOk, ThreadOk, InOrder, Listed, Only;
    var s' := RestoringStep(s, t, w, after, good);
    Restores(s, t, w, after, good);
    OneOwned(s, t);
    if good && s.runtimes[w].alive {
      NothingMoved(s, s');
    } else {
      DroppedFromNowhere(s, s', w);
    }
    Frame(s, s', t, {w});
  }

  lemma ReturningKeeps(s: Sys, t: nat, w: Worker, after: After)
    requires Inv(s) && t in s.threads && s.threads[t] == Returning(w, after)
    ensures Inv(ReturningStep(s, t, w, after))
  {
    hide StageOk, WorkerOk, ThreadOk, InOrder, Listed, Only;
    var s' := ReturningStep(s, t, w, after);
    Returns(s, t, w, after);
    OneOwned(s, t);
    GivenBack(s, s', w);
    Frame(s, s', t, {w});
  }

  // ----- Running a function -----

  ghost predicate Holds(s: Sys, t: nat, b: Thread) {
    && b.Busy? && SameWorkers(s) && b.w in s.place && t in s.threads && s.threads[t] == b
    && s.place[b.w] == Running(t) && StageOk(s.docs, b, s.functions[b.w], s.runtimes[b.w])
  }

  lemma BusyHolds(s: Sys, t: nat)
    requires Inv(s) && t in s.threads && s.threads[t].Busy?
    ensures Holds(s, t, s.threads[t])
  {
    assert ThreadOk(s, t);
    assert WorkerOk(s, s.threads[t].w);
  }

  /** The worker stays where it is: the caller is in stage, and the worker has r and id. */
  function AtStage(s: Sys, t: nat, b: Thread, id: FunctionId, r: Runtime): Sys
    requires b.Busy?
  {
    s.(threads := s.threads[t := b], functions := s.functions[b.w := id], runtimes := s.runtimes[b.w := r])
  }

  lemma StageKeeps(s: Sys, t: nat, b: Thread, id: FunctionId, r: Runtime)
    requires Inv(s) && b.Busy? && t in s.threads && s.threads[t].Busy?
    requires b.w == s.threads[t].w && Holds(s, t, s.threads[t]) && StageOk(s.docs, b, id, r)
    ensures Inv(AtStage(s, t, b, id, r))
  {
    hide StageOk, InOrder, Listed;
    var s' := AtStage(s, t, b, id, r);
    assert ThreadOk(s', t);
    assert WorkerOk(s', b.w);
    hide WorkerOk, ThreadOk;
    NothingMoved(s, s');
    OneOwned(s, t);
    Frame(s, s', t, {b.w});
  }

  // What a caller does next keeps its stage.

  lemma LoadStage(docs: set<Doc>, b: Thread, id: FunctionId, r: Runtime)
    requires b.Busy? && b.stage.Load? && StageOk(docs, b, id, r) && b.doc.code.Some?
    ensures StageOk(docs, b.(stage := AwaitLoaded), id, Send(r, FunctionMsg(b.doc.code.value)))
  {
  }

  lemma AwaitLoadedStage(docs: set<Doc>, b: Thread, id: FunctionId, r: Runtime)
    requires b.Busy? && b.stage.AwaitLoaded? && StageOk(docs, b, id, r) && r.outbox != []
    ensures r.outbox[0].LoadedMsg? && StageOk(docs, b.(stage := Ask), id, Receive(r))
  {
    assert Receive(r).outbox == [];
    assert b.doc == Doc(b.doc.id, b.doc.code);
  }

  lemma AskStage(docs: set<Doc>, b: Thread, id: FunctionId, r: Runtime)
    requires b.Busy? && b.stage.Ask? && StageOk(docs, b, id, r)
    ensures StageOk(docs, b.(stage := AwaitResponse), id, Send(r, RequestMsg(b.data)))
  {
  }

  lemma AwaitResponseStage(docs: set<Doc>, b: Thread, id: FunctionId, r: Runtime)
    requires b.Busy? && b.stage.AwaitResponse? && StageOk(docs, b, id, r) && r.outbox != []
    ensures r.outbox[0].ResponseMsg? && StageOk(docs, b.(stage := Answered(r.outbox[0].response)), id, Receive(r))
  {
    assert Receive(r).outbox == [];
  }

  lemma AnsweredStage(docs: set<Doc>, b: Thread, id: FunctionId, r: Runtime)
    requires b.Busy? && b.stage.Answered? && StageOk(docs, b, id, r)
    ensures StageOk(docs, b.(stage := Completing(b.stage.response)), if b.cold then b.doc.id else id, r)
  {
  }

  lemma Sticks(s: Sys, t: nat, b: Thread)
    requires Inv(s) && Holds(s, t, b) && b.stage.Load? && b.doc.code.None?
    ensures Inv(BusyStep(s, t, b))
  {
    hide InOrder, Listed;
    var s' := BusyStep(s, t, b);
    assert ThreadOk(s', t) && WorkerOk(s', b.w);
    hide StageOk, WorkerOk, ThreadOk;
    NothingMoved(s, s');
    OneOwned(s, t);
    Frame(s, s', t, {b.w});
  }

  lemma Completes(s: Sys, t: nat, b: Thread)
    requires Inv(s) && Holds(s, t, b) && b.stage.Completing? && s.lists.running != []
    ensures Step(s, BusyStep(s, t, b), t, b.w)
  {
    hide InOrder, Listed;
  }

  lemma CompletingKeeps(s: Sys, t: nat, b: Thread)
    requires Inv(s) && Holds(s, t, b) && b.stage.Completing? && s.lists.running != []
    ensures Inv(BusyStep(s, t, b))
  {
    hide StageOk, WorkerOk, ThreadOk, InOrder, Listed, Only;
    var s' := BusyStep(s, t, b);
    Completes(s, t, b);
    Completed(s, s', b.w);
    OneOwned(s, t);
    Frame(s, s', t, {b.w});
  }

  lemma SameEntry<K, V>(m: map<K, V>, k: K)
    requires k in m
    ensures m[k := m[k]] == m
  {
  }

  // ----- A turn of the runtime's loop -----

  /** What the runtime does with a message keeps the stage of the caller that waits for it. */
  lemma ServeKeepsStage(docs: set<Doc>, b: Thread, id: FunctionId, r: Runtime, fate: Fate)
    requires b.Busy? && StageOk(docs, b, id, r)
    ensures StageOk(docs, b, id, Serve(r, fate))
  {
    if r.alive && r.inbox != [] {
      assert r.inbox[1..] == [];
      assert r.outbox == [];
    }
  }

  lemma WorkKeeps(s: Sys, w: Worker, fate: Fate)
    requires Inv(s)
    ensures Inv(Next(s, Work(w, fate)))
  {
    var s' := Next(s, Work(w, fate));
    if w in s.place {
      assert WorkerOk(s, w);
      if s.place[w].Running? && s.threads[s.place[w].t].Busy? {
        ServeKeepsStage(s.docs, s.threads[s.place[w].t], s.functions[w], s.runtimes[w], fate);
      }
      assert WorkerOk(s', w);
      forall v | v in s'.place
        ensures WorkerOk(s', v)
      {
        assert WorkerOk(s, v);
      }
      forall t | t in s'.threads
        ensures ThreadOk(s', t)
      {
        assert ThreadOk(s, t);
      }
    }
  }

  // ----- Every step, every run -----

  lemma BusyKeeps(s: Sys, t: nat)
    requires Inv(s) && t in s.threads && s.threads[t].Busy?
    ensures Inv(BusyStep(s, t, s.threads[t]))
  {
    hide Inv, StageOk;
    var b := s.threads[t];
    BusyHolds(s, t);
    var id, r := s.functions[b.w], s.runtimes[b.w];
    SameEntry(s.functions, b.w);
    SameEntry(s.runtimes, b.w);
    match b.stage
    case Load =>
      if b.doc.code.None? {
        Sticks(s, t, b);
      } else {
        LoadStage(s.docs, b, id, r);
        StageKeeps(s, t, b.(stage := AwaitLoaded), id, Send(r, FunctionMsg(b.doc.code.value)));
      }
    case AwaitLoaded =>
      if r.outbox != [] {
        AwaitLoadedStage(s.docs, b, id, r);
        StageKeeps(s, t, b.(stage := Ask), id, Receive(r));
      }
    case Ask =>
      AskStage(s.docs, b, id, r);
      StageKeeps(s, t, b.(stage := AwaitResponse), id, Send(r, RequestMsg(b.data)));
    case AwaitResponse =>
      if r.outbox != [] {
        AwaitResponseStage(s.docs, b, id, r);
        StageKeeps(s, t, b.(stage := Answered(r.outbox[0].response)), id, Receive(r));
      }
    case Answered(x) =>
      AnsweredStage(s.docs, b, id, r);
      StageKeeps(s, t, b.(stage := Completing(x)), if b.cold then b.doc.id else id, r);
    case Completing(_) =>
      if s.lists.running != [] { CompletingKeeps(s, t, b); }
  }

  lemma GoKeeps(s: Sys, t: nat, good: bool)
    requires Inv(s)
    ensures Inv(GoStep(s, t, good))
  {
    hide Inv, StartStep, MissedStep, ForcingStep, BusyStep, RestoringStep, ReturningStep, TimerStep;
    if t in s.threads {
      match s.threads[t]
      case Start(doc, data) => StartKeeps(s, t, doc, data);
      case Missed(doc, data) => MissedKeeps(s, t, doc, data);
      case Forcing(doc, data) => ForcingKeeps(s, t, doc, data);
      case Busy(_, _, _, _, _) => BusyKeeps(s, t);
      case Restoring(w, after) => RestoringKeeps(s, t, w, after, good);
      case Returning(w, after) => ReturningKeeps(s, t, w, after);
      case Timer(w) => TimerKeeps(s, t, w, good);
      case _ =>
    }
  }

  lemma NextKeeps(s: Sys, a: Action)
    requires Inv(s)
    ensures Inv(Next(s, a))
  {
    hide Inv, GoStep;
    match a
    case Call(t, doc, data) => if t !in s.threads { CallKeeps(s, t, doc, data); }
    case Go(t, good) => GoKeeps(s, t, good);
    case Spawn(t, timer) =>
      if t in s.threads && s.threads[t].Spawning? && timer !in s.threads { SpawnKeeps(s, t, timer); }
    case Work(w, fate) => WorkKeeps(s, w, fate);
  }

  lemma InitialInv(s: Sys)
    requires IsInitial(s)
    ensures Inv(s)
  {
  }

  /** Every run, whatever interleaves with what. */
  lemma {:induction false} RunInv(s: Sys, actions: seq<Action>)
    requires Inv(s)
    ensures Inv(Run(s, actions))
    decreases actions
  {
    hide Inv, Next;
    if actions != [] {
      NextKeeps(s, actions[0]);
      RunInv(Next(s, actions[0]), actions[1..]);
    }
  }
}

/**
 What holds in every state that any interleaving of Run, decommission timers and forced
 evictions reaches.
 */
module WorkerTheorems {
  import opened Results
  import opened Pool
  import opened Workers
  import opened WorkerSteps

  // ----- Conservation -----

  predicate RunsOn(th: Thread, w: Worker) {
    (th.Busy? || th.Stuck?) && th.w == w
  }

  predicate RestoresIt(th: Thread, w: Worker) {
    (th.Restoring? || th.Returning?) && th.w == w
  }

  ghost predicate IsRestored(s: Sys, w: Worker) {
    exists t :: t in s.threads && RestoresIt(s.threads[t], w)
  }

  /** This action is a restore of w that does not succeed. */
  predicate RestoreFails(s: Sys, a: Action, w: Worker) {
    && a.Go? && a.t in s.threads && s.threads[a.t].Restoring? && s.threads[a.t].w == w && w in s.runtimes
    && !(a.good && s.runtimes[w].alive)
  }

  ghost predicate SomeRestoreFails(s: Sys, actions: seq<Action>, w: Worker)
    decreases actions
  {
    actions != [] && (RestoreFails(s, actions[0], w) || SomeRestoreFails(Next(s, actions[0]), actions[1..], w))
  }

  /** The same workers, and nobody is dropped. */
  ghost predicate NoneDropped(s: Sys, s': Sys) {
    && s'.place.Keys == s.place.Keys
    && forall w :: w in s.place ==> (s'.place[w] == Dropped <==> s.place[w] == Dropped)
  }

  lemma TakingDropsNone(s: Sys, t: nat, doc: Doc, data: Data)
    requires Inv(s) && t in s.threads
    ensures NoneDropped(s, StartStep(s, t, doc, data))
    ensures NoneDropped(s, MissedStep(s, t, doc, data))
  {
    hide InOrder, WorkerOk, ThreadOk, Holder;
    var i := Holder(s.lists.deployed, s.functions, doc.id);
    assert i < |s.lists.deployed| ==> s.lists.deployed[i] in s.lists.deployed;
    assert s.lists.undeployed != [] ==> s.lists.undeployed[0] in s.lists.undeployed;
  }

  lemma EvictingDropsNone(s: Sys, t: nat, i: nat, after: After)
    requires Inv(s) && t in s.threads && i < |s.lists.deployed|
    ensures NoneDropped(s, EvictStep(s, t, i, after))
  {
    hide InOrder, WorkerOk, ThreadOk;
    assert s.lists.deployed[i] in s.lists.deployed;
  }

  lemma TimerDropsNone(s: Sys, t: nat, w: Worker, elapsed: bool)
    requires Inv(s) && t in s.threads
    ensures NoneDropped(s, TimerStep(s, t, w, elapsed))
  {
    hide Inv, EvictStep;
    if elapsed && Verdict(s.lists, w) == Restore {
      EvictingDropsNone(s, t, IndexOf(s.lists.deployed, w), TimerEnds);
    }
  }

  lemma ReturningDropsNone(s: Sys, t: nat, w: Worker, after: After)
    requires Inv(s) && t in s.threads && s.threads[t] == Returning(w, after)
    ensures NoneDropped(s, ReturningStep(s, t, w, after))
  {
    hide InOrder, WorkerOk, Listed;
    assert ThreadOk(s, t);
  }

  lemma BusyDropsNone(s: Sys, t: nat)
    requires Inv(s) && t in s.threads && s.threads[t].Busy?
    ensures NoneDropped(s, BusyStep(s, t, s.threads[t]))
  {
    hide InOrder, WorkerOk, Listed, StageOk, Complete;
    assert ThreadOk(s, t);
  }

  lemma RestoringDrops(s: Sys, t: nat, w: Worker, after: After, good: bool)
    requires Inv(s) && t in s.threads && s.threads[t] == Restoring(w, after)
    ensures var s' := RestoringStep(s, t, w, after, good);
            && s'.place.Keys == s.place.Keys
            && forall v :: v in s.place ==>
                 (s'.place[v] == Dropped <==> s.place[v] == Dropped || RestoreFails(s, Go(t, good), v))
  {
    hide InOrder, WorkerOk, Listed, StageOk;
    assert ThreadOk(s, t);
  }

  lemma DroppedWhenRestoreFails(s: Sys, a: Action)
    requires Inv(s)
    ensures var s' := Next(s, a);
            && s'.place.Keys == s.place.Keys
            && forall w :: w in s.place ==> (s'.place[w] == Dropped <==> s.place[w] == Dropped || RestoreFails(s, a, w))
  {
    hide Inv, StartStep, MissedStep, EvictStep, BusyStep, RestoringStep, ReturningStep, TimerStep;
    if a.Go? && a.t in s.threads {
      var t := a.t;
      match s.threads[t]
      case Start(doc, data) => TakingDropsNone(s, t, doc, data);
      case Missed(doc, data) => TakingDropsNone(s, t, doc, data);
      case Forcing(doc, data) => if s.lists.deployed != [] { EvictingDropsNone(s, t, 0, Again(doc, data)); }
      case Busy(_, _, _, _, _) => BusyDropsNone(s, t);
      case Restoring(w, after) => RestoringDrops(s, t, w, after, a.good);
      case Returning(w, after) => ReturningDropsNone(s, t, w, after);
      case Timer(w) => TimerDropsNone(s, t, w, a.good);
      case _ =>
    }
  }

  lemma {:induction false} DroppedIffRestoreFailed(s: Sys, actions: seq<Action>, w: Worker)
    requires Inv(s) && w in s.place
    ensures var e := Run(s, actions);
            w in e.place && (e.place[w] == Dropped <==> s.place[w] == Dropped || SomeRestoreFails(s, actions, w))
    decreases actions
  {
    hide Inv, Next, RestoreFails;
    if actions != [] {
      NextKeeps(s, actions[0]);
      DroppedWhenRestoreFails(s, actions[0]);
      DroppedIffRestoreFailed(Next(s, actions[0]), actions[1..], w);
    }
  }

  /** Every worker is undeployed, deployed, running, being restored, or was dropped because a
      restore of it failed: exactly one of these, and in a list at most once. */
  lemma EveryWorkerIsInOnePlace(s: Sys, actions: seq<Action>, w: Worker)
    requires IsInitial(s) && w in s.lists.undeployed
    ensures var e := Run(s, actions);
            && NoDup(e.lists.undeployed) && NoDup(e.lists.deployed) && NoDup(e.lists.running)
            && One(w in e.lists.undeployed) + One(w in e.lists.deployed) + One(w in e.lists.running)
               + One(IsRestored(e, w)) + One(SomeRestoreFails(s, actions, w)) == 1
  {
    InitialInv(s);
    RunInv(s, actions);
    DroppedIffRestoreFailed(s, actions, w);
    var e := Run(s, actions);
    hide Run, InOrder, StageOk, IsInitial;
    assert WorkerOk(e, w);
    forall t | t in e.threads && RestoresIt(e.threads[t], w)
      ensures e.place[w].BeingRestored?
    {
      assert ThreadOk(e, t);
    }
  }

  /** A timer whose time has come restores its worker if it is deployed, ends if it is undeployed,
      and tries again exactly when it is running, being restored by somebody else, or dropped;
      for a dropped worker it does so for ever. */
  lemma TimerDecides(s: Sys, actions: seq<Action>, t: nat, w: Worker)
    requires IsInitial(s) && w in s.lists.undeployed
    requires t in Run(s, actions).threads && Run(s, actions).threads[t] == Timer(w)
    ensures var e := Run(s, actions);
            var n := Next(e, Go(t, true));
            && t in n.threads
            && (w in e.lists.deployed ==> n.threads[t] == Restoring(w, TimerEnds) && w !in n.lists.deployed)
            && (w in e.lists.undeployed ==> n.threads[t] == Finished && n.lists == e.lists)
            && (n == e <==> w in e.lists.running || IsRestored(e, w) || SomeRestoreFails(s, actions, w))
  {
    EveryWorkerIsInOnePlace(s, actions, w);
    var e := Run(s, actions);
    hide Run, IsInitial, IsRestored, SomeRestoreFails;
    TimerGoes(e, t, w);
    if w in e.lists.deployed {
      WithoutKeeps(e.lists.deployed, IndexOf(e.lists.deployed, w));
    }
  }

  lemma TimerGoes(e: Sys, t: nat, w: Worker)
    requires t in e.threads && e.threads[t] == Timer(w)
    ensures Next(e, Go(t, true)) == TimerStep(e, t, w, true)
  {
  }

  predicate SameHolding(s: Sys, t: nat, u: nat) {
    t in s.threads && u in s.threads && Owns(s.threads[t]) && Owns(s.threads[u]) && s.threads[t].w == s.threads[u].w
  }

  /** No worker enters from elsewhere, and a worker that runs or is restored has one goroutine. */
  lemma OneGoroutineForEachWorker(s: Sys, actions: seq<Action>)
    requires IsInitial(s)
    ensures var e := Run(s, actions);
            && (forall w :: w in e.lists.undeployed + e.lists.deployed + e.lists.running ==> w in s.lists.undeployed)
            && (forall t, u :: SameHolding(e, t, u) ==> t == u)
            && (forall t :: t in e.threads && Owns(e.threads[t]) ==>
                  (e.threads[t].w in e.lists.running <==> RunsOn(e.threads[t], e.threads[t].w)))
  {
    InitialInv(s);
    RunInv(s, actions);
    KeysStay(s, actions);
    hide Run, IsInitial, Inv;
    OwnersAreDistinct(Run(s, actions));
  }

  lemma OwnersAreDistinct(e: Sys)
    requires Inv(e)
    ensures forall w :: w in e.lists.undeployed + e.lists.deployed + e.lists.running ==> w in e.place
    ensures forall t, u :: SameHolding(e, t, u) ==> t == u
    ensures forall t :: t in e.threads && Owns(e.threads[t]) ==>
              (e.threads[t].w in e.lists.running <==> RunsOn(e.threads[t], e.threads[t].w))
  {
    hide InOrder, StageOk, WorkerOk;
    assert forall t :: t in e.threads ==> ThreadOk(e, t);
  }

  lemma {:induction false} KeysStay(s: Sys, actions: seq<Action>)
    requires Inv(s)
    ensures Run(s, actions).place.Keys == s.place.Keys
    decreases actions
  {
    hide Inv, Next;
    if actions != [] {
      NextKeeps(s, actions[0]);
      DroppedWhenRestoreFails(s, actions[0]);
      KeysStay(Next(s, actions[0]), actions[1..]);
    }
  }

  /** RunComplete finds its name, so that the index it starts with is never used. */
  lemma RunCompleteFindsItsName(s: Sys, actions: seq<Action>, t: nat)
    requires IsInitial(s)
    ensures var e := Run(s, actions);
            t in e.threads && e.threads[t].Busy? ==>
              && e.threads[t].w in e.lists.running
              && IndexOf(e.lists.running, e.threads[t].w) < |e.lists.running|
  {
    InitialInv(s);
    RunInv(s, actions);
    var e := Run(s, actions);
    hide Run, InOrder, StageOk, WorkerOk;
    if t in e.threads && e.threads[t].Busy? {
      assert ThreadOk(e, t);
    }
  }

  /** While a worker is restored nobody uses it, and no message to or from it is under way. */
  lemma NoRestoreWhileRequestOutstanding(s: Sys, actions: seq<Action>, t: nat)
    requires IsInitial(s)
    ensures var e := Run(s, actions);
            t in e.threads && (e.threads[t].Restoring? || e.threads[t].Returning?) ==>
              var w := e.threads[t].w;
              && w in e.runtimes && Quiet(e.runtimes[w])
              && w !in e.lists.undeployed + e.lists.deployed + e.lists.running
              && forall u :: u in e.threads && u != t ==> !RunsOn(e.threads[u], w) && !RestoresIt(e.threads[u], w)
  {
    InitialInv(s);
    RunInv(s, actions);
    hide Run, Inv, Quiet, RunsOn, RestoresIt;
    var e := Run(s, actions);
    if t in e.threads && (e.threads[t].Restoring? || e.threads[t].Returning?) {
      BeingRestoredAlone(e, t);
      forall u | u in e.threads && u != t
        ensures !RunsOn(e.threads[u], e.threads[t].w) && !RestoresIt(e.threads[u], e.threads[t].w)
      {
        NobodyElse(e, t, u);
      }
    }
  }

  lemma BeingRestoredAlone(e: Sys, t: nat)
    requires Inv(e) && t in e.threads && (e.threads[t].Restoring? || e.threads[t].Returning?)
    ensures var w := e.threads[t].w;
            && w in e.runtimes && Quiet(e.runtimes[w])
            && w !in e.lists.undeployed + e.lists.deployed + e.lists.running
  {
    hide InOrder, StageOk;
    assert ThreadOk(e, t);
    assert WorkerOk(e, e.threads[t].w);
  }

  lemma NobodyElse(e: Sys, t: nat, u: nat)
    requires Inv(e) && t in e.threads && (e.threads[t].Restoring? || e.threads[t].Returning?)
    requires u in e.threads && u != t
    ensures !RunsOn(e.threads[u], e.threads[t].w) && !RestoresIt(e.threads[u], e.threads[t].w)
  {
    hide InOrder, StageOk;
    assert ThreadOk(e, t) && ThreadOk(e, u);
  }

  // ----- Function isolation -----

  /** An undeployed worker is as it was checkpointed; a deployed one is idle, with code loaded
      that came with a document of the id recorded for the worker. */
  lemma Isolation(s: Sys, actions: seq<Action>, w: Worker)
    requires IsInitial(s)
    ensures var e := Run(s, actions);
            && (w in e.lists.undeployed ==> w in e.runtimes && e.runtimes[w] == FRESH)
            && (w in e.lists.deployed ==>
                  w in e.runtimes && w in e.functions && Serving(e.docs, e.functions[w], e.runtimes[w]))
  {
    InitialInv(s);
    RunInv(s, actions);
    var e := Run(s, actions);
    hide Run, InOrder, StageOk;
    if w in e.place {
      assert WorkerOk(e, w);
    }
  }

  // ----- What a caller of Run gets back -----

  /** The documents that callers pass to Run. */
  predicate Uses(actions: seq<Action>, docs: set<Doc>) {
    forall i :: 0 <= i < |actions| && actions[i].Call? ==> actions[i].doc in docs
  }

  /** Thread t is Run(doc, data), at whatever point of it. */
  predicate IsRunOf(th: Thread, doc: Doc, data: Data) {
    match th
    case Start(d, x) => d == doc && x == data
    case Missed(d, x) => d == doc && x == data
    case Forcing(d, x) => d == doc && x == data
    case Busy(_, d, x, _, _) => d == doc && x == data
    case Restoring(_, after) => after == Again(doc, data)
    case Returning(_, after) => after == Again(doc, data)
    case Spawning(_, d, x, _) => d == doc && x == data
    case Answer(d, x, _) => d == doc && x == data
    case Stuck(_, d) => d == doc
    case Timer(_) => false
    case Finished => false
  }

  /** Only thread t moved, it still serves the same call, and no document came. */
  ghost predicate Local(s: Sys, s': Sys, t: nat) {
    && s'.docs == s.docs
    && t in s.threads && s'.threads.Keys == s.threads.Keys
    && (forall u :: u != t && u in s.threads ==> s'.threads[u] == s.threads[u])
    && (forall doc, data :: IsRunOf(s.threads[t], doc, data) ==> IsRunOf(s'.threads[t], doc, data))
  }

  lemma StartIsLocal(s: Sys, t: nat, doc: Doc, data: Data)
    requires t in s.threads && s.threads[t] == Start(doc, data)
    ensures Local(s, StartStep(s, t, doc, data), t)
  {
    hide Holder, TakeDeployed;
  }

  lemma MissedIsLocal(s: Sys, t: nat, doc: Doc, data: Data)
    requires t in s.threads && s.threads[t] == Missed(doc, data)
    ensures Local(s, MissedStep(s, t, doc, data), t)
  {
    hide TakeUndeployed;
  }

  lemma ForcingIsLocal(s: Sys, t: nat, doc: Doc, data: Data)
    requires t in s.threads && s.threads[t] == Forcing(doc, data)
    ensures Local(s, ForcingStep(s, t, doc, data), t)
  {
    hide Evict;
  }

  lemma RestoringIsLocal(s: Sys, t: nat, w: Worker, after: After, good: bool)
    requires t in s.threads
    ensures s.threads[t] == Restoring(w, after) ==> Local(s, RestoringStep(s, t, w, after, good), t)
    ensures s.threads[t] == Returning(w, after) ==> Local(s, ReturningStep(s, t, w, after), t)
  {
    hide GiveBack, RestoreRuntime;
  }

  lemma TimerIsLocal(s: Sys, t: nat, w: Worker, elapsed: bool)
    requires t in s.threads && s.threads[t] == Timer(w)
    ensures Local(s, TimerStep(s, t, w, elapsed), t)
  {
    hide Evict, Verdict, IndexOf;
  }

  lemma LoadingIsLocal(s: Sys, t: nat)
    requires t in s.threads && s.threads[t].Busy?
    requires s.threads[t].stage.Load? || s.threads[t].stage.AwaitLoaded? || s.threads[t].stage.Ask?
    ensures Local(s, BusyStep(s, t, s.threads[t]), t)
  {
    hide Complete, Receive, Send;
  }

  lemma AnsweringIsLocal(s: Sys, t: nat)
    requires t in s.threads && s.threads[t].Busy?
    requires s.threads[t].stage.AwaitResponse? || s.threads[t].stage.Answered? || s.threads[t].stage.Completing?
    ensures Local(s, BusyStep(s, t, s.threads[t]), t)
  {
    hide Complete, Receive, Send;
  }

  lemma BusyIsLocal(s: Sys, t: nat)
    requires t in s.threads && s.threads[t].Busy?
    ensures Local(s, BusyStep(s, t, s.threads[t]), t)
  {
    hide BusyStep, Local;
    if s.threads[t].stage.Load? || s.threads[t].stage.AwaitLoaded? || s.threads[t].stage.Ask? {
      LoadingIsLocal(s, t);
    } else {
      AnsweringIsLocal(s, t);
    }
  }

  lemma GoIsLocal(s: Sys, t: nat, good: bool)
    requires t in s.threads
    ensures Local(s, GoStep(s, t, good), t)
  {
    hide StartStep, MissedStep, ForcingStep, BusyStep, RestoringStep, ReturningStep, TimerStep, IsRunOf;
    match s.threads[t]
    case Start(doc, data) => StartIsLocal(s, t, doc, data);
    case Missed(doc, data) => MissedIsLocal(s, t, doc, data);
    case Forcing(doc, data) => ForcingIsLocal(s, t, doc, data);
    case Busy(_, _, _, _, _) => BusyIsLocal(s, t);
    case Restoring(w, after) => RestoringIsLocal(s, t, w, after, good);
    case Returning(w, after) => RestoringIsLocal(s, t, w, after, good);
    case Timer(w) => TimerIsLocal(s, t, w, good);
    case _ =>
  }

  lemma CallStaysItself(s: Sys, a: Action, t: nat, doc: Doc, data: Data)
    requires t in s.threads && IsRunOf(s.threads[t], doc, data)
    ensures t in Next(s, a).threads && IsRunOf(Next(s, a).threads[t], doc, data)
  {
    hide GoStep;
    if a.Go? && a.t in s.threads {
      GoIsLocal(s, a.t, a.good);
    } else if a.Go? {
      GoNowhere(s, a.t, a.good);
    }
  }

  lemma GoNowhere(s: Sys, t: nat, good: bool)
    requires t !in s.threads
    ensures GoStep(s, t, good) == s
  {
  }

  lemma {:induction false} CallStaysItselfThroughout(s: Sys, actions: seq<Action>, t: nat, doc: Doc, data: Data)
    requires t in s.threads && IsRunOf(s.threads[t], doc, data)
    ensures var e := Run(s, actions);
            t in e.threads && IsRunOf(e.threads[t], doc, data)
    decreases actions
  {
    hide Next, IsRunOf;
    if actions != [] {
      CallStaysItself(s, actions[0], t, doc, data);
      CallStaysItselfThroughout(Next(s, actions[0]), actions[1..], t, doc, data);
    }
  }

  lemma DocsOfNext(s: Sys, a: Action, docs: set<Doc>)
    requires s.docs <= docs && (a.Call? ==> a.doc in docs)
    ensures Next(s, a).docs <= docs
  {
    hide GoStep;
    if a.Go? && a.t in s.threads {
      GoIsLocal(s, a.t, a.good);
    } else if a.Go? {
      GoNowhere(s, a.t, a.good);
    }
  }

  lemma {:induction false} DocsOfRun(s: Sys, actions: seq<Action>, docs: set<Doc>)
    requires s.docs <= docs && Uses(actions, docs)
    ensures Run(s, actions).docs <= docs
    decreases actions
  {
    hide Next;
    if actions != [] {
      DocsOfNext(s, actions[0], docs);
      assert forall i :: 0 <= i < |actions[1..]| ==> actions[1..][i] == actions[i + 1];
      DocsOfRun(Next(s, actions[0]), actions[1..], docs);
    }
  }

  /** Whatever Run(doc, data) returns was computed on data, by code that some call passed under
      the id of doc: the answer of another request is never handed out. */
  lemma AnswersMatchRequests(s: Sys, before: seq<Action>, t: nat, doc: Doc, data: Data, later: seq<Action>)
    requires IsInitial(s) && t !in Run(s, before).threads
    ensures var e := Run(Next(Run(s, before), Call(t, doc, data)), later);
            && t in e.threads && IsRunOf(e.threads[t], doc, data)
            && (e.threads[t].Answer? ==> Correct(e.docs, doc, data, e.threads[t].response))
  {
    InitialInv(s);
    RunInv(s, before);
    var m := Run(s, before);
    hide Run, InOrder, StageOk, WorkerOk, Inv;
    NextKeeps(m, Call(t, doc, data));
    CallStaysItselfThroughout(Next(m, Call(t, doc, data)), later, t, doc, data);
    RunInv(Next(m, Call(t, doc, data)), later);
    var e := Run(Next(m, Call(t, doc, data)), later);
    if e.threads[t].Answer? {
      AnswerIsCorrect(e, t);
    }
  }

  lemma AnswerIsCorrect(s: Sys, t: nat)
    requires Inv(s) && t in s.threads && s.threads[t].Answer?
    ensures s.threads[t].doc in s.docs
    ensures Correct(s.docs, s.threads[t].doc, s.threads[t].data, s.threads[t].response)
  {
    assert ThreadOk(s, t);
  }

  // ----- When the answer is the work of the caller's own code -----

  /** Documents of one id have one code, unless none of them has any. */
  predicate IdsDetermineCode(docs: set<Doc>) {
    forall d, e :: d in docs && e in docs && d.id == e.id && d.code.Some? ==> e.code == d.code
  }

  predicate OwnAnswer(th: Thread) {
    th.Answer? ==> th.doc.code.Some? && th.response == Computed(th.doc.code.value, th.data)
  }

  /** In every run over these documents, from s, every answer is the work of the code that its
      caller passed. */
  ghost predicate AlwaysOwnAnswers(s: Sys, docs: set<Doc>) {
    forall actions, t :: Uses(actions, docs) && t in Run(s, actions).threads ==> OwnAnswer(Run(s, actions).threads[t])
  }

  lemma OwnAnswersWhenIdsDetermineCode(s: Sys, actions: seq<Action>, docs: set<Doc>, t: nat)
    requires IsInitial(s) && IdsDetermineCode(docs) && Uses(actions, docs) && t in Run(s, actions).threads
    ensures OwnAnswer(Run(s, actions).threads[t])
  {
    InitialInv(s);
    RunInv(s, actions);
    DocsOfRun(s, actions, docs);
    var e := Run(s, actions);
    hide Run, Inv;
    if e.threads[t].Answer? {
      AnswerIsCorrect(e, t);
      var a := e.threads[t];
      assert a.doc in docs && Doc(a.doc.id, Some(a.response.code)) in docs;
    }
  }

  // ----- A run in which it is not -----

  /** Thread t runs on w alone, and w has r and holds id. */
  ghost predicate Alone(s: Sys, t: nat, b: Thread, id: FunctionId, r: Runtime) {
    && b.Busy? && t in s.threads && s.threads[t] == b
    && b.w in s.runtimes && s.runtimes[b.w] == r && b.w in s.functions && s.functions[b.w] == id
    && s.lists.deployed == [] && s.lists.running == [b.w]
  }

  /** Nothing is running, w is deployed and has r and holds id. */
  ghost predicate Idle(s: Sys, w: Worker, id: FunctionId, r: Runtime) {
    && w in s.runtimes && s.runtimes[w] == r && w in s.functions && s.functions[w] == id
    && s.lists.deployed == [w] && s.lists.running == []
  }

  lemma BusyGoes(s: Sys, t: nat, good: bool)
    requires t in s.threads && s.threads[t].Busy?
    ensures Next(s, Go(t, good)) == BusyStep(s, t, s.threads[t])
  {
  }

  lemma Loads(s: Sys, t: nat, b: Thread, id: FunctionId)
    requires Alone(s, t, b, id, FRESH) && b.stage.Load? && b.doc.code.Some?
    ensures var e := Next(Next(Next(s, Go(t, true)), Work(b.w, Fine)), Go(t, true));
            Alone(e, t, b.(stage := Ask), id, Runtime(true, b.doc.code, [], [])) && e.threads.Keys == s.threads.Keys
  {
    BusyGoes(s, t, true);
    var s1 := Next(s, Go(t, true));
    assert Alone(s1, t, b.(stage := AwaitLoaded), id, Runtime(true, None, [FunctionMsg(b.doc.code.value)], []));
    var s2 := Next(s1, Work(b.w, Fine));
    assert [FunctionMsg(b.doc.code.value)][1..] == [];
    assert Alone(s2, t, b.(stage := AwaitLoaded), id, Runtime(true, b.doc.code, [], [LoadedMsg(true)]));
    BusyGoes(s2, t, true);
    assert [LoadedMsg(true)][1..] == [];
  }

  lemma Asks(s: Sys, t: nat, b: Thread, id: FunctionId, c: Code)
    requires Alone(s, t, b, id, Runtime(true, Some(c), [], [])) && b.stage.Ask?
    ensures var e := Next(Next(Next(s, Go(t, true)), Work(b.w, Fine)), Go(t, true));
            Alone(e, t, b.(stage := Answered(Computed(c, b.data))), id, Runtime(true, Some(c), [], []))
            && e.threads.Keys == s.threads.Keys
  {
    BusyGoes(s, t, true);
    var s1 := Next(s, Go(t, true));
    assert Alone(s1, t, b.(stage := AwaitResponse), id, Runtime(true, Some(c), [RequestMsg(b.data)], []));
    var s2 := Next(s1, Work(b.w, Fine));
    assert [RequestMsg(b.data)][1..] == [];
    assert Alone(s2, t, b.(stage := AwaitResponse), id, Runtime(true, Some(c), [], [ResponseMsg(Computed(c, b.data))]));
    BusyGoes(s2, t, true);
    assert [ResponseMsg(Computed(c, b.data))][1..] == [];
  }

  lemma Ends(s: Sys, t: nat, b: Thread, id: FunctionId, r: Runtime)
    requires Alone(s, t, b, id, r) && b.stage.Answered?
    ensures var e := Next(Next(s, Go(t, true)), Go(t, true));
            && Idle(e, b.w, if b.cold then b.doc.id else id, r) && e.threads.Keys == s.threads.Keys
            && e.threads[t]
            == if b.cold then Spawning(b.w, b.doc, b.data, b.stage.response)
               else Answer(b.doc, b.data, b.stage.response)
  {
    BusyGoes(s, t, true);
    var s1 := Next(s, Go(t, true));
    assert Alone(s1, t, b.(stage := Completing(b.stage.response)), if b.cold then b.doc.id else id, r);
    BusyGoes(s1, t, true);
  }

  /** What a caller does once it may ask for its answer. */
  function AskToEnd(t: nat, w: Worker): seq<Action> {
    [Go(t, true), Work(w, Fine), Go(t, true), Go(t, true), Go(t, true)]
  }

  lemma AsksToEnd(s: Sys, t: nat, b: Thread, id: FunctionId, c: Code)
    requires b.Busy? && Alone(s, t, b, id, Runtime(true, Some(c), [], [])) && b.stage.Ask?
    ensures var e := Run(s, AskToEnd(t, b.w));
            && Idle(e, b.w, if b.cold then b.doc.id else id, Runtime(true, Some(c), [], []))
            && e.threads.Keys == s.threads.Keys
            && e.threads[t]
            == if b.cold then Spawning(b.w, b.doc, b.data, Computed(c, b.data))
               else Answer(b.doc, b.data, Computed(c, b.data))
  {
    hide Next, Alone, Idle;
    Asks(s, t, b, id, c);
    var m := Next(Next(Next(s, Go(t, true)), Work(b.w, Fine)), Go(t, true));
    Ends(m, t, b.(stage := Answered(Computed(c, b.data))), id, Runtime(true, Some(c), [], []));
    RunOfFive(s, Go(t, true), Work(b.w, Fine), Go(t, true), Go(t, true), Go(t, true));
  }

  lemma RunOfTwo(s: Sys, a: Action, b: Action)
    ensures Run(s, [a, b]) == Next(Next(s, a), b)
  {
    hide Next;
    assert [a, b][1..] == [b] && [b][1..] == [];
    assert Run(Next(s, a), [b]) == Run(Next(Next(s, a), b), []);
  }

  lemma RunOfThree(s: Sys, a: Action, b: Action, c: Action)
    ensures Run(s, [a, b, c]) == Next(Next(Next(s, a), b), c)
  {
    hide Next;
    assert [a, b, c][1..] == [b, c];
    RunOfTwo(Next(s, a), b, c);
  }

  lemma RunOfFive(s: Sys, a: Action, b: Action, c: Action, d: Action, e: Action)
    ensures Run(s, [a, b, c, d, e]) == Next(Next(Next(Next(Next(s, a), b), c), d), e)
  {
    hide Next;
    assert [a, b, c, d, e][1..] == [b, c, d, e] && [b, c, d, e][1..] == [c, d, e];
    RunOfThree(Next(Next(s, a), b), c, d, e);
    assert Run(Next(s, a), [b, c, d, e]) == Run(Next(Next(s, a), b), [c, d, e]);
  }

  /** A first call, up to where it holds a fresh worker. */
  lemma ColdStart(s: Sys, d: Doc, x: Data)
    requires IsInitial(s) && s.lists.undeployed != []
    ensures var e := Next(Next(Next(s, Call(0, d, x)), Go(0, true)), Go(0, true));
            var w := s.lists.undeployed[0];
            && w in s.functions && Alone(e, 0, Busy(w, d, x, true, Load), s.functions[w], FRESH)
            && e.threads.Keys == {0}
  {
    var w := s.lists.undeployed[0];
    assert w in s.lists.undeployed && w in s.place;
  }

  /** A later call, up to where it holds the deployed worker. */
  lemma HotStart(s: Sys, w: Worker, r: Runtime, d: Doc, x: Data)
    requires Idle(s, w, d.id, r) && 1 !in s.threads
    ensures var e := Next(Next(s, Call(1, d, x)), Go(1, true));
            Alone(e, 1, Busy(w, d, x, false, Ask), d.id, r)
  {
  }

  function StaleActions(w: Worker, d: Doc, later: Doc, x: Data): seq<Action> {
    [Call(0, d, x), Go(0, true), Go(0, true)] + [Go(0, true), Work(w, Fine), Go(0, true)] + AskToEnd(0, w)
    + [Call(1, later, x), Go(1, true)] + AskToEnd(1, w)
  }

  /** Run a document, change its code but not its id, and run it again: the second answer comes
      from the first code. */
  lemma StaleCode(s: Sys, d: Doc, later: Doc, x: Data)
    requires IsInitial(s) && s.lists.undeployed != [] && d.code.Some? && later.id == d.id
    ensures var e := Run(s, StaleActions(s.lists.undeployed[0], d, later, x));
            1 in e.threads && e.threads[1] == Answer(later, x, Computed(d.code.value, x))
  {
    hide Next, Alone, Idle, IsInitial, AskToEnd;
    var w, c := s.lists.undeployed[0], d.code.value;
    ColdStart(s, d, x);
    var s1 := Next(Next(Next(s, Call(0, d, x)), Go(0, true)), Go(0, true));
    var id := s.functions[w];
    var b := Busy(w, d, x, true, Load);
    Loads(s1, 0, b, id);
    var s2 := Next(Next(Next(s1, Go(0, true)), Work(w, Fine)), Go(0, true));
    AsksToEnd(s2, 0, b.(stage := Ask), id, c);
    var s3 := Run(s2, AskToEnd(0, w));
    HotStart(s3, w, Runtime(true, Some(c), [], []), later, x);
    var s4 := Next(Next(s3, Call(1, later, x)), Go(1, true));
    AsksToEnd(s4, 1, Busy(w, later, x, false, Ask), d.id, c);
    RunOfThree(s, Call(0, d, x), Go(0, true), Go(0, true));
    RunOfThree(s1, Go(0, true), Work(w, Fine), Go(0, true));
    RunOfTwo(s3, Call(1, later, x), Go(1, true));
    var a1 := [Call(0, d, x), Go(0, true), Go(0, true)];
    var a2 := a1 + [Go(0, true), Work(w, Fine), Go(0, true)];
    var a3 := a2 + AskToEnd(0, w);
    var a4 := a3 + [Call(1, later, x), Go(1, true)];
    RunInTwo(s, a1, [Go(0, true), Work(w, Fine), Go(0, true)]);
    RunInTwo(s, a2, AskToEnd(0, w));
    RunInTwo(s, a3, [Call(1, later, x), Go(1, true)]);
    RunInTwo(s, a4, AskToEnd(1, w));
  }

  lemma RunInTwo(s: Sys, a: seq<Action>, b: seq<Action>)
    ensures Run(s, a + b) == Run(Run(s, a), b)
    decreases a
  {
    hide Next;
    if a == [] {
      assert a + b == b;
    } else {
      assert (a + b)[1..] == a[1..] + b;
      RunInTwo(Next(s, a[0]), a[1..], b);
    }
  }

  /** Callers get the work of the code they passed, in every run over these documents, exactly
      when the id of a document determines its code. */
  lemma OwnAnswersIffIdsDetermineCode(s: Sys, docs: set<Doc>)
    requires IsInitial(s) && s.lists.undeployed != []
    ensures AlwaysOwnAnswers(s, docs) <==> IdsDetermineCode(docs)
  {
    hide Run, IsInitial;
    if IdsDetermineCode(docs) {
      forall actions, t | Uses(actions, docs) && t in Run(s, actions).threads
        ensures OwnAnswer(Run(s, actions).threads[t])
      {
        OwnAnswersWhenIdsDetermineCode(s, actions, docs, t);
      }
    } else {
      var d, later :| d in docs && later in docs && d.id == later.id && d.code.Some? && later.code != d.code;
      var x := Data("");
      StaleCode(s, d, later, x);
      var actions := StaleActions(s.lists.undeployed[0], d, later, x);
      assert Uses(actions, docs);
      assert !OwnAnswer(Run(s, actions).threads[1]);
    }
  }
}

/**
 Every deployed worker has a timer.
 */
module WorkerTimers {
  import opened Pool
  import opened Workers
  import opened WorkerSteps

  /** A timer of w, or a call that is about to start one. */
  predicate Watches(th: Thread, w: Worker) {
    th == Timer(w) || (th.Spawning? && th.w == w)
  }

  ghost predicate HasWatcher(s: Sys, w: Worker) {
    exists u :: u in s.threads && Watches(s.threads[u], w)
  }

  /** The worker is deployed, or runs a call that found it deployed. */
  predicate NeedsWatcher(s: Sys, w: Worker) {
    && w in s.place
    && (s.place[w].Deployed?
        || (s.place[w].Running? && s.place[w].t in s.threads && s.threads[s.place[w].t].Busy?
            && !s.threads[s.place[w].t].cold))
  }

  ghost predicate Watched(s: Sys) {
    forall w :: NeedsWatcher(s, w) ==> HasWatcher(s, w)
  }

  /** Of the threads, only t is different. */
  ghost predicate OnlyThread(s: Sys, n: Sys, t: nat) {
    forall u :: u != t && u in s.threads ==> u in n.threads && n.threads[u] == s.threads[u]
  }

  lemma WatcherStays(s: Sys, n: Sys, t: nat, w: Worker)
    requires HasWatcher(s, w) && OnlyThread(s, n, t)
    requires t in s.threads && Watches(s.threads[t], w) ==> t in n.threads && Watches(n.threads[t], w)
    ensures HasWatcher(n, w)
  {
  }

  /** Who needs a watcher after a step of thread t needed one before, or has one. */
  lemma StillWatched(s: Sys, n: Sys, t: nat)
    requires Watched(s) && OnlyThread(s, n, t)
    requires forall w :: NeedsWatcher(n, w) ==>
               || (t in n.threads && Watches(n.threads[t], w))
               || (NeedsWatcher(s, w) && !(t in s.threads && Watches(s.threads[t], w)))
    ensures Watched(n)
  {
    hide NeedsWatcher, HasWatcher, Watches, OnlyThread;
    forall w | NeedsWatcher(n, w)
      ensures HasWatcher(n, w)
    {
      if t in n.threads && Watches(n.threads[t], w) {
        IsWatcher(n, t, w);
      } else {
        WatcherStays(s, n, t, w);
      }
    }
  }

  lemma IsWatcher(n: Sys, t: nat, w: Worker)
    requires t in n.threads && Watches(n.threads[t], w)
    ensures HasWatcher(n, w)
  {
  }

  /** A running worker has its own thread, and that is no other's. */
  lemma RunnersOwn(s: Sys, t: nat)
    requires Inv(s)
    ensures forall w :: w in s.place && s.place[w] == Running(t) ==>
              t in s.threads && (s.threads[t].Busy? || s.threads[t].Stuck?) && s.threads[t].w == w
  {
    hide InOrder, StageOk, Listed;
    forall w | w in s.place && s.place[w] == Running(t)
      ensures t in s.threads && (s.threads[t].Busy? || s.threads[t].Stuck?) && s.threads[t].w == w
    {
      assert WorkerOk(s, w);
    }
  }

  lemma FirstHolderIsDeployed(s: Sys, id: FunctionId)
    requires Inv(s)
    ensures var i := Holder(s.lists.deployed, s.functions, id);
            i < |s.lists.deployed| ==> s.lists.deployed[i] in s.place && s.place[s.lists.deployed[i]].Deployed?
  {
    hide InOrder, WorkerOk, ThreadOk, Holder;
    var i := Holder(s.lists.deployed, s.functions, id);
    assert i < |s.lists.deployed| ==> s.lists.deployed[i] in s.lists.deployed;
  }

  lemma StartIsWatched(s: Sys, t: nat, doc: Doc, data: Data)
    requires Inv(s) && Watched(s) && t in s.threads && s.threads[t] == Start(doc, data)
    ensures Watched(StartStep(s, t, doc, data))
  {
    hide Inv, Watched, Holder, TakeDeployed;
    var n := StartStep(s, t, doc, data);
    RunnersOwn(s, t);
    FirstHolderIsDeployed(s, doc.id);
    StillWatched(s, n, t);
  }

  lemma MissedIsWatched(s: Sys, t: nat, doc: Doc, data: Data)
    requires Inv(s) && Watched(s) && t in s.threads && s.threads[t] == Missed(doc, data)
    ensures Watched(MissedStep(s, t, doc, data))
  {
    hide Inv, Watched, TakeUndeployed;
    RunnersOwn(s, t);
    StillWatched(s, MissedStep(s, t, doc, data), t);
  }

  lemma EvictIsWatched(s: Sys, t: nat, i: nat, after: After)
    requires Inv(s) && Watched(s) && t in s.threads && i < |s.lists.deployed|
    requires s.threads[t].Forcing? || s.threads[t] == Timer(s.lists.deployed[i])
    ensures Watched(EvictStep(s, t, i, after))
  {
    hide Inv, Watched, Evict;
    RunnersOwn(s, t);
    StillWatched(s, EvictStep(s, t, i, after), t);
  }

  lemma TimerIsWatched(s: Sys, t: nat, w: Worker, elapsed: bool)
    requires Inv(s) && Watched(s) && t in s.threads && s.threads[t] == Timer(w)
    ensures Watched(TimerStep(s, t, w, elapsed))
  {
    RunnersOwn(s, t);
    hide InOrder, WorkerOk, ThreadOk, StageOk, Watched, EvictStep;
    if elapsed && Verdict(s.lists, w) == Restore {
      EvictIsWatched(s, t, IndexOf(s.lists.deployed, w), TimerEnds);
    } else if elapsed && Verdict(s.lists, w) == Stop {
      hide Inv;
      StillWatched(s, Put(s, t, Finished), t);
    }
  }

  /** The step of thread t took w to a place where nobody needs to watch it. */
  lemma UnneededIsWatched(s: Sys, n: Sys, t: nat, w: Worker, p: Place, th: Thread)
    requires Inv(s) && Watched(s) && t in s.threads && Owns(s.threads[t]) && w in s.place
    requires n.threads == s.threads[t := th] && n.place == s.place[w := p] && !p.Deployed? && !p.Running?
    requires s.threads[t].w == w
    ensures Watched(n)
  {
    hide Inv, Watched;
    RunnersOwn(s, t);
    StillWatched(s, n, t);
  }

  lemma RestoringIsWatched(s: Sys, t: nat, w: Worker, after: After, good: bool)
    requires Inv(s) && Watched(s) && t in s.threads && s.threads[t] == Restoring(w, after)
    ensures Watched(RestoringStep(s, t, w, after, good))
  {
    var n := RestoringStep(s, t, w, after, good);
    RestoredIsOwned(s, t);
    assert s.place[w := s.place[w]] == s.place;
    hide Inv, Watched, RestoreRuntime;
    if n != s {
      UnneededIsWatched(s, n, t, w, n.place[w], n.threads[t]);
    }
  }

  lemma RestoredIsOwned(s: Sys, t: nat)
    requires Inv(s) && t in s.threads && (s.threads[t].Restoring? || s.threads[t].Returning?)
    ensures s.threads[t].w in s.place && s.place[s.threads[t].w] == BeingRestored(t)
  {
    hide InOrder, WorkerOk, Listed;
    assert ThreadOk(s, t);
  }

  lemma ReturningIsWatched(s: Sys, t: nat, w: Worker, after: After)
    requires Inv(s) && Watched(s) && t in s.threads && s.threads[t] == Returning(w, after)
    ensures Watched(ReturningStep(s, t, w, after))
  {
    RestoredIsOwned(s, t);
    hide Inv, Watched, GiveBack;
    UnneededIsWatched(s, ReturningStep(s, t, w, after), t, w, Undeployed, Continue(after));
  }

  /** A call that holds its worker as before, or is stuck with it. */
  lemma HoldingIsWatched(s: Sys, n: Sys, t: nat, th: Thread)
    requires Inv(s) && Watched(s) && t in s.threads && s.threads[t].Busy?
    requires n.threads == s.threads[t := th] && n.place == s.place
    requires th.Stuck? || (th.Busy? && th.cold == s.threads[t].cold)
    ensures Watched(n)
  {
    hide Inv, Watched;
    RunnersOwn(s, t);
    StillWatched(s, n, t);
  }

  /** A call that hands its worker back: it starts a timer if the worker was cold. */
  lemma CompletingIsWatched(s: Sys, n: Sys, t: nat, th: Thread)
    requires Inv(s) && Watched(s) && t in s.threads && s.threads[t].Busy?
    requires var w := s.threads[t].w;
             && w in s.place && s.place[w] == Running(t) && n.threads == s.threads[t := th]
             && n.place == s.place[w := Deployed] && (s.threads[t].cold ==> th.Spawning? && th.w == w)
    ensures Watched(n)
  {
    hide Inv, Watched;
    RunnersOwn(s, t);
    StillWatched(s, n, t);
  }

  lemma BusyIsWatched(s: Sys, t: nat)
    requires Inv(s) && Watched(s) && t in s.threads && s.threads[t].Busy?
    ensures Watched(BusyStep(s, t, s.threads[t]))
  {
    var n := BusyStep(s, t, s.threads[t]);
    BusyHolds(s, t);
    BusyGoesOn(s, t);
    hide Inv, Watched, StageOk, BusyStep;
    if n != s {
      if n.place == s.place {
        HoldingIsWatched(s, n, t, n.threads[t]);
      } else {
        CompletingIsWatched(s, n, t, n.threads[t]);
      }
    }
  }

  /** What thread t, which holds its worker, does in a step. */
  predicate BusyMoves(s: Sys, n: Sys, t: nat)
    requires t in s.threads && s.threads[t].Busy?
  {
    var b := s.threads[t];
    || n == s
    || (&& t in n.threads && n.threads == s.threads[t := n.threads[t]]
        && (|| (n.place == s.place && (n.threads[t].Stuck? || (n.threads[t].Busy? && n.threads[t].cold == b.cold)))
            || (n.place == s.place[b.w := Deployed] && (b.cold ==> n.threads[t].Spawning? && n.threads[t].w == b.w))))
  }

  lemma BusyGoesOn(s: Sys, t: nat)
    requires t in s.threads && s.threads[t].Busy?
    ensures BusyMoves(s, BusyStep(s, t, s.threads[t]), t)
  {
    var stage := s.threads[t].stage;
    hide BusyStep, BusyMoves;
    if stage.Load? || stage.AwaitLoaded? || stage.Ask? {
      LoadingGoesOn(s, t);
    } else {
      AnsweringGoesOn(s, t);
    }
  }

  lemma LoadingGoesOn(s: Sys, t: nat)
    requires t in s.threads && s.threads[t].Busy?
    requires s.threads[t].stage.Load? || s.threads[t].stage.AwaitLoaded? || s.threads[t].stage.Ask?
    ensures BusyMoves(s, BusyStep(s, t, s.threads[t]), t)
  {
    hide Complete, Receive, Send;
  }

  lemma AnsweringGoesOn(s: Sys, t: nat)
    requires t in s.threads && s.threads[t].Busy?
    requires s.threads[t].stage.AwaitResponse? || s.threads[t].stage.Answered? || s.threads[t].stage.Completing?
    ensures BusyMoves(s, BusyStep(s, t, s.threads[t]), t)
  {
    hide Complete, Receive, Send;
  }

  lemma GoIsWatched(s: Sys, t: nat, good: bool)
    requires Inv(s) && Watched(s)
    ensures Watched(GoStep(s, t, good))
  {
    hide Inv, Watched, StartStep, MissedStep, EvictStep, BusyStep, RestoringStep, ReturningStep, TimerStep;
    if t in s.threads {
      match s.threads[t]
      case Start(doc, data) => StartIsWatched(s, t, doc, data);
      case Missed(doc, data) => MissedIsWatched(s, t, doc, data);
      case Forcing(doc, data) => if s.lists.deployed != [] { EvictIsWatched(s, t, 0, Again(doc, data)); }
      case Busy(_, _, _, _, _) => BusyIsWatched(s, t);
      case Restoring(w, after) => RestoringIsWatched(s, t, w, after, good);
      case Returning(w, after) => ReturningIsWatched(s, t, w, after);
      case Timer(w) => TimerIsWatched(s, t, w, good);
      case _ =>
    }
  }

  lemma SpawnIsWatched(s: Sys, t: nat, timer: nat)
    requires Inv(s) && Watched(s) && t in s.threads && s.threads[t].Spawning? && timer !in s.threads
    ensures Watched(Next(s, Spawn(t, timer)))
  {
    hide Inv;
    RunnersOwn(s, t);
    RunnersOwn(s, timer);
    var n := Next(s, Spawn(t, timer));
    forall w | NeedsWatcher(n, w)
      ensures HasWatcher(n, w)
    {
      assert NeedsWatcher(s, w);
      var u :| u in s.threads && Watches(s.threads[u], w);
      IsWatcher(n, if u == t then timer else u, w);
    }
  }

  lemma NextIsWatched(s: Sys, a: Action)
    requires Inv(s) && Watched(s)
    ensures Watched(Next(s, a))
  {
    hide Inv, Watched, GoStep, Serve;
    match a
    case Call(t, doc, data) =>
      if t !in s.threads {
        RunnersOwn(s, t);
        StillWatched(s, Next(s, a), t);
      }
    case Go(t, good) => GoIsWatched(s, t, good);
    case Spawn(t, timer) =>
      if t in s.threads && s.threads[t].Spawning? && timer !in s.threads { SpawnIsWatched(s, t, timer); }
    case Work(w, fate) => WorkIsWatched(s, w, fate);
  }

  lemma WorkIsWatched(s: Sys, w: Worker, fate: Fate)
    requires Watched(s)
    ensures Watched(Next(s, Work(w, fate)))
  {
    hide Serve;
    var n := Next(s, Work(w, fate));
    forall v | NeedsWatcher(n, v)
      ensures HasWatcher(n, v)
    {
      assert NeedsWatcher(s, v);
      var u :| u in s.threads && Watches(s.threads[u], v);
      IsWatcher(n, u, v);
    }
  }

  lemma {:induction false} WatchedRun(s: Sys, actions: seq<Action>)
    requires Inv(s) && Watched(s)
    ensures Watched(Run(s, actions))
    decreases actions
  {
    hide Inv, Next, Watched;
    if actions != [] {
      NextKeeps(s, actions[0]);
      NextIsWatched(s, actions[0]);
      WatchedRun(Next(s, actions[0]), actions[1..]);
    }
  }

  /** In every run a deployed worker has a timer, or a call that is about to start one: no worker
      stays deployed because everybody has forgotten it. */
  lemma DeployedWorkersAreWatched(s: Sys, actions: seq<Action>, w: Worker)
    requires IsInitial(s)
    ensures var e := Run(s, actions);
            w in e.lists.deployed ==>
              exists t ::
                t in e.threads && (e.threads[t] == Timer(w) || (e.threads[t].Spawning? && e.threads[t].w == w))
  {
    InitialInv(s);
    RunInv(s, actions);
    assert Watched(s);
    WatchedRun(s, actions);
    var e := Run(s, actions);
    hide Run, InOrder, WorkerOk, ThreadOk;
    if w in e.lists.deployed {
      assert NeedsWatcher(e, w);
      var u :| u in e.threads && Watches(e.threads[u], w);
    }
  }
}

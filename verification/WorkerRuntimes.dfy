/**
 When the process in a worker dies, and that a caller who waits for its function to be loaded is
 answered.
 */
module WorkerRuntimes {
  import opened Pool
  import opened Workers
  import opened WorkerSteps
  import opened WorkerTheorems

  /** The process of w ends: user code leaves the interpreter while it is loaded; or, once a
      function is loaded, it raises or leaves, or a line comes that is no object. */
  predicate Kills(s: Sys, a: Action, w: Worker) {
    && a.Work? && a.w == w && w in s.runtimes && s.runtimes[w].alive && s.runtimes[w].inbox != []
    && var line := s.runtimes[w].inbox[0];
       if s.runtimes[w].loaded.None? then line.FunctionMsg? && a.fate == Exits
       else line.BareLine? || (line.RequestMsg? && a.fate != Fine)
  }

  ghost predicate SomeKill(s: Sys, actions: seq<Action>, w: Worker)
    decreases actions
  {
    actions != [] && (Kills(s, actions[0], w) || SomeKill(Next(s, actions[0]), actions[1..], w))
  }

  ghost predicate StaysAlive(s: Sys, s': Sys, w: Worker) {
    w in s.runtimes && w in s'.runtimes && (s'.runtimes[w].alive <==> s.runtimes[w].alive)
  }

  lemma BusyKeepsAlive(s: Sys, t: nat, w: Worker)
    requires t in s.threads && s.threads[t].Busy? && w in s.runtimes
    ensures StaysAlive(s, BusyStep(s, t, s.threads[t]), w)
  {
    hide Complete;
  }

  lemma GoKeepsAlive(s: Sys, t: nat, good: bool, w: Worker)
    requires w in s.runtimes
    ensures StaysAlive(s, GoStep(s, t, good), w)
  {
    hide Holder, TakeDeployed, TakeUndeployed, Evict, GiveBack, Verdict, IndexOf, BusyStep;
    if t in s.threads && s.threads[t].Busy? {
      BusyKeepsAlive(s, t, w);
    }
  }

  lemma AliveUnlessKilled(s: Sys, a: Action, w: Worker)
    requires w in s.runtimes
    ensures w in Next(s, a).runtimes
    ensures Next(s, a).runtimes[w].alive <==> s.runtimes[w].alive && !Kills(s, a, w)
  {
    hide GoStep;
    if a.Go? {
      GoKeepsAlive(s, a.t, a.good, w);
    }
  }

  lemma {:induction false} AliveRun(s: Sys, actions: seq<Action>, w: Worker)
    requires w in s.runtimes
    ensures w in Run(s, actions).runtimes
    ensures Run(s, actions).runtimes[w].alive <==> s.runtimes[w].alive && !SomeKill(s, actions, w)
    decreases actions
  {
    hide Next, Kills;
    if actions != [] {
      AliveUnlessKilled(s, actions[0], w);
      AliveRun(Next(s, actions[0]), actions[1..], w);
    }
  }

  /** In every run the process of a worker is alive until user code ends it in one of these ways:
      code that raises while it is loaded does not, and no restore brings a dead process back. */
  lemma AliveIffNeverKilled(s: Sys, actions: seq<Action>, w: Worker)
    requires IsInitial(s) && w in s.lists.undeployed
    ensures var e := Run(s, actions);
            w in e.runtimes && (e.runtimes[w].alive <==> !SomeKill(s, actions, w))
  {
    AliveRun(s, actions, w);
  }

  /** A caller that waits for its function to be loaded gets an answer, whether the code loads or
      raises: one turn of the runtime and one of the caller, and it goes on. */
  lemma LoadIsAnswered(s: Sys, actions: seq<Action>, t: nat, fate: Fate, good: bool)
    requires IsInitial(s)
    requires var e := Run(s, actions);
             && t in e.threads && e.threads[t].Busy? && e.threads[t].stage == AwaitLoaded
             && e.threads[t].w in e.runtimes
             && (e.runtimes[e.threads[t].w].outbox != [] || (e.runtimes[e.threads[t].w].alive && fate != Exits))
    ensures var e := Run(s, actions);
            var b := e.threads[t];
            var n := Next(Next(e, Work(b.w, fate)), Go(t, good));
            t in n.threads && n.threads[t] == b.(stage := Ask)
  {
    InitialInv(s);
    RunInv(s, actions);
    var e := Run(s, actions);
    BusyHolds(e, t);
    hide Run, Inv, IsInitial, Next, StageOk;
    AnswerComes(e, t, fate, good);
  }

  lemma AnswerComes(e: Sys, t: nat, fate: Fate, good: bool)
    requires t in e.threads && Holds(e, t, e.threads[t]) && e.threads[t].stage == AwaitLoaded
    requires var r := e.runtimes[e.threads[t].w];
             r.outbox != [] || (r.alive && fate != Exits)
    ensures var b := e.threads[t];
            var n := Next(Next(e, Work(b.w, fate)), Go(t, good));
            t in n.threads && n.threads[t] == b.(stage := Ask)
  {
    var b := e.threads[t];
    var m := Next(e, Work(b.w, fate));
    Replies(e.docs, b, e.functions[b.w], e.runtimes[b.w], fate);
    BusyGoes(m, t, good);
    hide Serve, StageOk;
  }

  lemma Replies(docs: set<Doc>, b: Thread, id: FunctionId, r: Runtime, fate: Fate)
    requires b.Busy? && b.stage == AwaitLoaded && StageOk(docs, b, id, r)
    requires r.outbox != [] || (r.alive && fate != Exits)
    ensures Serve(r, fate).outbox != [] && Serve(r, fate).outbox[0].LoadedMsg?
  {
  }
}

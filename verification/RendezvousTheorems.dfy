/**
 What holds in every state that a run reaches, whichever operations the controlling goroutine
 goes through and however the tracers and the kernel are interleaved with it.
 */
module RendezvousTheorems {
  import opened Results
  import opened Rendezvous
  import opened RendezvousSteps

  // ----- Statuses -----

  /** A task's status is on its channel or in the goroutine's hand, never both. */
  lemma OneStatusForEachTask(s: Sys, actions: seq<Action>, t: Tid)
    requires IsInitial(s)
    ensures var e := Run(s, actions);
            t in e.tasks ==> One(e.tasks[t].slot.Some?) + One(InHand(e, t)) <= 1
  {
    InitialInv(s);
    RunInv(s, actions);
    hide Run;
  }

  /** The tracer has reported a stop and nobody has told it to go on. */
  predicate InReportedStop(pc: Pc) {
    pc == Ordered || pc.Popping? || pc.Stepping? || pc.Served? || pc == Leaving
  }

  /** A status is around only while its tracer is in the stop that it reported with it; and the
      task is stopped, unless an order lets it run for the moment, or it is being let go. */
  lemma StatusOnlyInReportedStop(s: Sys, actions: seq<Action>, t: Tid)
    requires IsInitial(s)
    ensures var e := Run(s, actions);
            t in e.tasks && e.attached && !Detaching(e.todo) && (e.tasks[t].slot.Some? || InHand(e, t)) ==>
              var k := e.tasks[t];
              && InReportedStop(k.pc)
              && k.reported == (if k.slot.Some? then k.slot.value else e.hand.value.status)
              && (k.kernel.Halted? || k.pc.Stepping? || k.pc == Leaving)
              && (k.kernel == Halted(k.reported) || k.stepped || k.pc.Popping? || k.pc == Leaving)
  {
    InitialInv(s);
    RunInv(s, actions);
    var e := Run(s, actions);
    hide Run, Owed;
    if t in e.tasks {
      assert TracerOk(e, t);
    }
  }

  /** A tracer that posts a status never finds the channel full, and neither does the goroutine
      that puts one back. */
  lemma PostsNeverBlock(s: Sys, actions: seq<Action>, t: Tid, order: seq<Tid>, ok: bool)
    requires IsInitial(s)
    ensures var e := Run(s, actions);
            && (t in e.tasks && e.tasks[t].pc.Reporting? ==>
                  Next(e, Tracer(t, ok)) == SetTask(e, t, e.tasks[t].(
                    slot := Some(e.tasks[t].pc.w), pc := Ordered, reported := e.tasks[t].pc.w, stepped := false)))
            && (Head(e.todo, PutBack(t)) && Ranges(order, e.tasks.Keys) ==>
                  Next(e, Control(order, ok)).todo == e.todo[1..] && Next(e, Control(order, ok)).hand == None)
  {
    InitialInv(s);
    RunInv(s, actions);
    var e := Run(s, actions);
    hide Run, Owed;
    if t in e.tasks {
      assert TracerOk(e, t);
    }
  }

  predicate IsOrder(c: Cmd, t: Tid) {
    (c.Send? || c.Resume? || c.DetachTask?) && c.t == t
  }

  /** Orders to read and set registers, to run system calls, to go on and to detach are taken up
      only while the thread is stopped. */
  lemma OrdersOnlyInAStop(s: Sys, actions: seq<Action>, order: seq<Tid>, ok: bool, t: Tid)
    requires IsInitial(s)
    ensures var e := Run(s, actions);
            e.todo != [] && IsOrder(e.todo[0], t) && Next(e, Control(order, ok)) != e ==>
              t in e.tasks && e.tasks[t].pc == Ordered && e.tasks[t].kernel.Halted?
  {
    InitialInv(s);
    RunInv(s, actions);
    var e := Run(s, actions);
    hide Run, Owed;
    if t in e.tasks {
      assert TracerOk(e, t);
    }
  }

  // ----- Stop -----

  predicate Parked(s: Sys, t: Tid) {
    t in s.tasks && s.tasks[t].pc == Ordered && s.tasks[t].kernel.Halted? && s.tasks[t].slot.Some?
  }

  predicate StopPart(c: Cmd) {
    c.StopTask? || c.TakeBack? || c.PutBack?
  }

  predicate StopDue(todo: seq<Cmd>, t: Tid) {
    StopTask(t) in todo || TakeBack(t) in todo || PutBack(t) in todo
  }

  /** On the way through Stop. */
  predicate Stopping(s: Sys) {
    && s.attached
    && (forall c :: c in s.todo ==> StopPart(c))
    && (forall t :: t in s.tasks ==> Parked(s, t) || StopDue(s.todo, t))
  }

  predicate NoCalls(actions: seq<Action>) {
    forall i :: 0 <= i < |actions| ==> !actions[i].Call?
  }

  /** One command of Stop: the thread it names is done with, or due, and no other task is touched. */
  lemma StopPartTurn(s: Sys, order: seq<Tid>, ok: bool)
    requires Inv(s) && s.attached && s.todo != [] && StopPart(s.todo[0]) && !Detaching(s.todo)
    ensures var c, s' := s.todo[0], ControlStep(s, order, ok);
            || s' == s
            || (&& s'.attached && s'.tasks.Keys == s.tasks.Keys
                && (forall t :: t in s.tasks && t != c.t ==> s'.tasks[t] == s.tasks[t])
                && ((s'.todo == s.todo[1..] && Parked(s', c.t))
                    || s'.todo == [PutBack(c.t)] + s.todo[1..] || s'.todo == [TakeBack(c.t)] + s.todo[1..]))
  {
    hide Owed, TodoOk;
    assert KnownTask(s.todo[0], s.tasks.Keys) by { HeadFacts(s); }
    assert TracerOk(s, s.todo[0].t);
  }

  lemma StopPartStep(s: Sys, order: seq<Tid>, ok: bool)
    requires Inv(s) && Stopping(s)
    ensures Stopping(ControlStep(s, order, ok))
  {
    if s.todo != [] {
      var c := s.todo[0];
      var s' := ControlStep(s, order, ok);
      assert s.todo == [c] + s.todo[1..] && c in s.todo;
      StopPartTurn(s, order, ok);
      hide Inv, ControlStep;
      assert s' != s && s'.todo != s.todo[1..] ==> s'.todo[0] in s'.todo;
    }
  }

  lemma StoppingNext(s: Sys, a: Action)
    requires Inv(s) && Stopping(s) && !a.Call?
    ensures Stopping(Next(s, a))
  {
    hide Inv, ControlStep;
    if a.Control? {
      StopPartStep(s, a.order, a.ok);
    }
  }

  lemma {:induction false} StoppingRun(s: Sys, actions: seq<Action>)
    requires Inv(s) && Stopping(s) && NoCalls(actions)
    ensures Stopping(Run(s, actions))
    decreases actions
  {
    hide Inv, Next, Stopping;
    if actions != [] {
      NextKeeps(s, actions[0]);
      StoppingNext(s, actions[0]);
      StoppingRun(Next(s, actions[0]), actions[1..]);
    }
  }

  lemma StopFromHere(m: Sys, order: seq<Tid>, later: seq<Action>)
    requires Inv(m) && m.attached && m.todo == [] && Ranges(order, m.tasks.Keys) && NoCalls(later)
    ensures Inv(Next(m, Call(Stop, order))) && Stopping(Run(Next(m, Call(Stop, order)), later))
  {
    var n := Next(m, Call(Stop, order));
    NextKeeps(m, Call(Stop, order));
    AllAreDue(order);
    assert Stopping(n);
    StoppingRun(n, later);
  }

  lemma GoneWhenDetached(s: Sys)
    requires Inv(s) && !s.attached
    ensures s.leader in s.tasks && !Parked(s, s.leader)
  {
  }

  /** When Stop returns, every task is stopped, its tracer waits for orders, and the channel
      holds its status, exactly when the controller is still attached. */
  lemma StopStopsEveryTaskIffAttached(s: Sys, before: seq<Action>, order: seq<Tid>, later: seq<Action>)
    requires IsInitial(s) && NoCalls(later)
    requires Run(s, before).todo == [] && Ranges(order, s.tasks.Keys)
    ensures var m := Run(s, before);
            var e := Run(Next(m, Call(Stop, order)), later);
            e.todo == [] ==> (m.attached <==> forall t :: t in s.tasks ==> Parked(e, t))
  {
    InitialInv(s);
    RunInv(s, before);
    TasksStay(s, before);
    hide Run, Next, Inv, IsInitial, Ranges;
    var m := Run(s, before);
    var n := Next(m, Call(Stop, order));
    var e := Run(n, later);
    NextKeeps(m, Call(Stop, order));
    NextKeepsTasks(m, Call(Stop, order));
    RunInv(n, later);
    TasksStay(n, later);
    if m.attached {
      StopFromHere(m, order, later);
    } else {
      StaysDetached(n, later);
      GoneWhenDetached(e);
    }
  }

  lemma AllAreDue(order: seq<Tid>)
    ensures forall t :: t in order ==> StopTask(t) in StopAll(order)
  {
    forall t | t in order
      ensures StopTask(t) in StopAll(order)
    {
      var i :| 0 <= i < |order| && order[i] == t;
      assert StopAll(order)[i] == StopTask(t);
    }
  }

  lemma TakingKeepsTasks(s: Sys, order: seq<Tid>)
    requires s.todo != [] && s.leader in s.tasks
    ensures var s' := TakeStep(s, s.todo[0], order);
            s'.tasks.Keys == s.tasks.Keys && s'.attached == s.attached
  {
    hide ResumeAll;
  }

  lemma MeetingKeepsTasks(s: Sys, ok: bool)
    requires s.todo != []
    ensures var s' := MeetStep(s, s.todo[0], ok);
            s'.tasks.Keys == s.tasks.Keys && (!s.attached ==> !s'.attached)
  {
  }

  lemma NextKeepsTasks(s: Sys, a: Action)
    requires Inv(s)
    ensures Next(s, a).tasks.Keys == s.tasks.Keys && (!s.attached ==> !Next(s, a).attached)
  {
    LeaderIsTask(s);
    hide Inv, OpOk, Program, TracerTurn, HaltTask, Ranges, TakeStep, MeetStep, Takes;
    if a.Control? && s.todo != [] {
      TakingKeepsTasks(s, a.order);
      MeetingKeepsTasks(s, a.ok);
    }
  }

  lemma {:induction false} TasksStay(s: Sys, actions: seq<Action>)
    requires Inv(s)
    ensures Run(s, actions).tasks.Keys == s.tasks.Keys
    decreases actions
  {
    hide Inv, Next;
    if actions != [] {
      NextKeeps(s, actions[0]);
      NextKeepsTasks(s, actions[0]);
      TasksStay(Next(s, actions[0]), actions[1..]);
    }
  }

  lemma {:induction false} StaysDetached(s: Sys, actions: seq<Action>)
    requires Inv(s) && !s.attached
    ensures !Run(s, actions).attached
    decreases actions
  {
    hide Inv, Next;
    if actions != [] {
      NextKeeps(s, actions[0]);
      NextKeepsTasks(s, actions[0]);
      StaysDetached(Next(s, actions[0]), actions[1..]);
    }
  }

  // ----- Detach -----

  /** The first command may be replaced; those behind it stay. */
  lemma RestStays(s: Sys, order: seq<Tid>, ok: bool, c: Cmd)
    requires s.todo != [] && c in s.todo[1..]
    ensures c in ControlStep(s, order, ok).todo
  {
    assert c in s.todo;
    TakingKeepsRest(s, order, c);
    MeetingKeepsRest(s, ok, c);
    hide TakeStep, MeetStep;
  }

  lemma TakingKeepsRest(s: Sys, order: seq<Tid>, c: Cmd)
    requires s.todo != [] && c in s.todo[1..]
    ensures c in TakeStep(s, s.todo[0], order).todo
  {
    hide ResumeAll;
    assert c in s.todo;
  }

  lemma MeetingKeepsRest(s: Sys, ok: bool, c: Cmd)
    requires s.todo != [] && c in s.todo[1..]
    ensures c in MeetStep(s, s.todo[0], ok).todo
  {
    assert c in s.todo;
  }

  lemma DetachingNext(s: Sys, a: Action)
    requires Inv(s) && (!s.attached || Detaching(s.todo)) && !a.Call?
    ensures !Next(s, a).attached || Detaching(Next(s, a).todo)
  {
    if a.Control? && s.attached {
      assert s.todo == [s.todo[0]] + s.todo[1..];
      if s.todo[0] != SetDetached {
        RestStays(s, a.order, a.ok, SetDetached);
      }
    } else if !s.attached {
      NextKeepsTasks(s, a);
    }
  }

  lemma {:induction false} DetachingRun(s: Sys, actions: seq<Action>)
    requires Inv(s) && (!s.attached || Detaching(s.todo)) && NoCalls(actions)
    ensures var e := Run(s, actions);
            !e.attached || Detaching(e.todo)
    decreases actions
  {
    hide Inv, Next, Detaching;
    if actions != [] {
      NextKeeps(s, actions[0]);
      DetachingNext(s, actions[0]);
      DetachingRun(Next(s, actions[0]), actions[1..]);
    }
  }

  /** When Detach returns, every tracer has let its task go. */
  lemma DetachLetsEveryTaskGo(s: Sys, before: seq<Action>, order: seq<Tid>, later: seq<Action>)
    requires IsInitial(s) && NoCalls(later)
    requires Run(s, before).todo == [] && Ranges(order, s.tasks.Keys)
    ensures var e := Run(Next(Run(s, before), Call(Detach, order)), later);
            e.todo == [] ==> !e.attached && forall t :: t in s.tasks ==> t in e.tasks && e.tasks[t].pc == Gone
  {
    InitialInv(s);
    RunInv(s, before);
    TasksStay(s, before);
    hide Run, Inv, Next, Detaching, NoCalls, Ranges, IsInitial;
    var m := Run(s, before);
    var n := Next(m, Call(Detach, order));
    DetachIsCalled(m, order);
    NextKeepsTasks(m, Call(Detach, order));
    NextKeeps(m, Call(Detach, order));
    RunInv(n, later);
    TasksStay(n, later);
    DetachingRun(n, later);
    if Run(n, later).todo == [] { DetachIsOver(Run(n, later)); }
  }

  lemma DetachIsCalled(s: Sys, order: seq<Tid>)
    requires s.todo == [] && Ranges(order, s.tasks.Keys)
    ensures Detaching(Next(s, Call(Detach, order)).todo)
  {
    DetachProgram(order, s.tasks.Keys);
    hide DetachAll, Detaching, Ranges;
  }

  lemma DetachIsOver(s: Sys)
    requires Inv(s) && s.todo == [] && (!s.attached || Detaching(s.todo))
    ensures !s.attached && forall t :: t in s.tasks ==> s.tasks[t].pc == Gone
  {
    hide TodoOk, HandOk, TracerOk;
  }

  // ----- PauseAtSignal -----

  predicate StoppedBy(w: Status, sig: Signo) {
    StopSignal(w) == sig
  }

  predicate GoOn(c: Cmd) {
    c.Resume? || c.Continued?
  }

  /** On the way through PauseAtSignal: still looking for the signal, or putting it back, or done. */
  predicate Pausing(s: Sys, sig: Signo) {
    && s.attached
    && (s.todo == [] ==> Parked(s, s.leader) && StoppedBy(s.tasks[s.leader].slot.value, sig))
    && (s.todo != [] ==>
          || (s.todo == [PutBack(s.leader)] && s.hand.Some? && StoppedBy(s.hand.value.status, sig))
          || s.todo == [Judge(sig)]
          || (s.todo[|s.todo| - 1] == Pause(sig) && forall i :: 0 <= i < |s.todo| - 1 ==> GoOn(s.todo[i])))
  }

  lemma PausingControl(s: Sys, sig: Signo, order: seq<Tid>, ok: bool)
    requires Inv(s) && Pausing(s, sig)
    ensures Pausing(ControlStep(s, order, ok), sig)
  {
    hide Owed, TodoOk;
    if s.todo != [] && Ranges(order, s.tasks.Keys) {
      assert TracerOk(s, s.leader);
      if s.todo == [Judge(sig)] {
        JudgeGoesOn(s, sig, order);
      } else if GoOn(s.todo[0]) {
        GoOnGoesOn(s, sig, ok);
      } else {
        assert s.todo[1..] == [];
      }
    }
  }

  lemma JudgeGoesOn(s: Sys, sig: Signo, order: seq<Tid>)
    requires Inv(s) && s.attached && s.todo == [Judge(sig)]
    ensures Pausing(TakeStep(s, Judge(sig), order), sig)
  {
    hide Owed, TodoOk;
    assert s.todo[1..] == [];
    var s' := TakeStep(s, Judge(sig), order);
    if StopSignal(s.hand.value.status) != sig {
      assert s'.todo == ResumeAll(order, StopSignal(s.hand.value.status)) + [Pause(sig)];
    }
  }

  lemma GoOnLeaves(s: Sys, ok: bool)
    requires s.todo != [] && GoOn(s.todo[0])
    ensures var s' := MeetStep(s, s.todo[0], ok);
            && s'.attached == s.attached
            && (|| s'.todo == s.todo || s'.todo == s.todo[1..]
                || (|s'.todo| == |s.todo| && s'.todo[1..] == s.todo[1..] && GoOn(s'.todo[0])))
  {
  }

  lemma GoOnGoesOn(s: Sys, sig: Signo, ok: bool)
    requires Inv(s) && Pausing(s, sig) && s.todo != [] && GoOn(s.todo[0])
    ensures Pausing(MeetStep(s, s.todo[0], ok), sig)
  {
    hide Inv, MeetStep, Parked, StoppedBy;
    var s' := MeetStep(s, s.todo[0], ok);
    GoOnLeaves(s, ok);
    assert |s.todo| > 1;
    assert s'.todo[|s'.todo| - 1] == s.todo[|s.todo| - 1] && s'.todo[|s'.todo| - 1] == Pause(sig);
    forall i | 0 <= i < |s'.todo| - 1
      ensures GoOn(s'.todo[i])
    {
      if i > 0 {
        assert s'.todo[i] == s'.todo[1..][i - 1];
      }
      assert s.todo[i + 1] == s.todo[1..][i];
    }
  }

  lemma PausingNext(s: Sys, sig: Signo, a: Action)
    requires Inv(s) && Pausing(s, sig) && !a.Call?
    ensures Pausing(Next(s, a), sig)
  {
    hide ControlStep, Owed, TodoOk;
    if a.Control? {
      PausingControl(s, sig, a.order, a.ok);
    }
  }

  lemma {:induction false} PausingRun(s: Sys, sig: Signo, actions: seq<Action>)
    requires Inv(s) && Pausing(s, sig) && NoCalls(actions)
    ensures Pausing(Run(s, actions), sig)
    decreases actions
  {
    hide Inv, Next, Pausing;
    if actions != [] {
      NextKeeps(s, actions[0]);
      PausingNext(s, sig, actions[0]);
      PausingRun(Next(s, actions[0]), sig, actions[1..]);
    }
  }

  /** When PauseAtSignal returns, the leader is stopped with a report of that signal, and the
      report is on its channel, so that a Stop after it finds the leader stopped. */
  lemma PauseAtSignalPausesThere(s: Sys, before: seq<Action>, sig: Signo, order: seq<Tid>, later: seq<Action>)
    requires IsInitial(s) && NoCalls(later)
    requires Run(s, before).todo == [] && Run(s, before).attached && Ranges(order, s.tasks.Keys)
    ensures var e := Run(Next(Run(s, before), Call(PauseAtSignal(sig), order)), later);
            e.todo == [] ==> Parked(e, e.leader) && StopSignal(e.tasks[e.leader].slot.value) == sig
  {
    InitialInv(s);
    RunInv(s, before);
    TasksStay(s, before);
    var m := Run(s, before);
    var n := Next(m, Call(PauseAtSignal(sig), order));
    hide Run, Inv, IsInitial;
    NextKeeps(m, Call(PauseAtSignal(sig), order));
    PausingRun(n, sig, later);
  }

  // ----- After Detach -----

  function Alone(t: Tid, k: Task, todo: seq<Cmd>, hand: Option<Held>, attached: bool): Sys {
    Sys(map[t := k], t, todo, hand, attached)
  }

  lemma StopOfOne(t: Tid, k: Task, rest: seq<Cmd>, attached: bool)
    requires k.slot.Some?
    ensures var s1 := Next(Alone(t, k, [StopTask(t)] + rest, None, attached), Control([t], true));
            && s1 == Alone(t, k.(slot := None), [PutBack(t)] + rest, Some(Held(t, k.slot.value)), attached)
            && Next(s1, Control([t], true)) == Alone(t, k, rest, None, attached)
  {
    assert ([StopTask(t)] + rest)[1..] == rest && ([PutBack(t)] + rest)[1..] == rest;
  }

  lemma DetachOfOne(t: Tid, k: Task)
    requires k.pc == Ordered
    ensures var s1 := Next(Alone(t, k, [DetachTask(t), SetDetached], None, true), Control([t], true));
            && s1 == Alone(t, k.(pc := Leaving, kernel := Going(0)), [Detached(t), SetDetached], None, true)
            && Next(s1, Control([t], true)) == Alone(t, k.(pc := Gone, kernel := Going(0)), [SetDetached], None, true)
  {
    hide Ranges;
    RangeOfOne(t, k);
    RangeOfOne(t, k.(pc := Leaving, kernel := Going(0)));
    assert [DetachTask(t), SetDetached][1..] == [SetDetached] && [Detached(t), SetDetached][1..] == [SetDetached];
  }

  lemma RangeOfOne(t: Tid, k: Task)
    ensures Ranges([t], map[t := k].Keys)
  {
  }

  lemma DetachedOne(t: Tid, k: Task)
    ensures Next(Alone(t, k, [SetDetached], None, true), Control([t], true)) == Alone(t, k, [], None, false)
  {
    assert [SetDetached][1..] == [];
  }

  lemma HaltOfOne(t: Tid, sig: Signo)
    ensures var w := Signal(sig);
            var s := Alone(t, Task(Going(0), Waiting, None, GroupStop, false), [], None, true);
            Next(Next(Next(s, Halt(t, w)), Tracer(t, true)), Tracer(t, true))
            == Alone(t, Task(Halted(w), Ordered, Some(w), w, false), [], None, true)
  {
    var w := Signal(sig);
    var s := Alone(t, Task(Going(0), Waiting, None, GroupStop, false), [], None, true);
    assert Next(s, Halt(t, w)) == Alone(t, Task(Halted(w), Waiting, None, GroupStop, false), [], None, true);
    assert Next(Next(s, Halt(t, w)), Tracer(t, true))
        == Alone(t, Task(Halted(w), Reporting(w), None, GroupStop, false), [], None, true);
  }

  lemma CallOfOne(t: Tid, k: Task)
    ensures Next(Alone(t, k, [], None, true), Call(Detach, [t]))
         == Alone(t, k, [StopTask(t)] + [DetachTask(t), SetDetached], None, true)
    ensures Next(Alone(t, k, [], None, false), Call(Stop, [t])) == Alone(t, k, [StopTask(t)] + [], None, false)
  {
    assert DetachAll([t][1..]) == [SetDetached];
  }

  lemma RunInTwo(s: Sys, a: seq<Action>, b: seq<Action>)
    ensures Run(s, a + b) == Run(Run(s, a), b)
    decreases a
  {
    hide Next;
    if a == [] {
      assert a + b == b;
    } else {
      assert (a + b)[1..] == a[1..] + b;
      RunInTwo(Next(s, a[0]), a[1..], b);
    }
  }

  lemma RunOfThree(s: Sys, a: Action, b: Action, c: Action)
    ensures Run(s, [a, b, c]) == Next(Next(Next(s, a), b), c)
  {
    hide Next;
    assert [a, b, c][1..] == [b, c] && [b, c][1..] == [c] && [c][1..] == [];
    assert Run(Next(Next(s, a), b), [c]) == Next(Next(Next(s, a), b), c);
    assert Run(Next(s, a), [b, c]) == Run(Next(Next(s, a), b), [c]);
  }

  /** A process of one task is stopped by a signal, and detached; then Stop is called. */
  function DetachThenStop(t: Tid, sig: Signo): seq<Action> {
    var go := Control([t], true);
    [Halt(t, Signal(sig)), Tracer(t, true), Tracer(t, true)] + [Call(Detach, [t]), go, go] + [go, go, go]
    + [Call(Stop, [t]), go, go]
  }

  /** Detach leaves the status on the channel. So a Stop after it returns at once, and the thread
      goes on running. */
  lemma StopAfterDetachIsHollow(t: Tid, sig: Signo)
    ensures var s := Alone(t, Task(Going(0), Waiting, None, GroupStop, false), [], None, true);
            var e := Run(s, DetachThenStop(t, sig));
            && IsInitial(s)
            && e == Alone(t, Task(Going(0), Gone, Some(Signal(sig)), Signal(sig), false), [], None, false)
  {
    hide Next, Run;
    var go, w := Control([t], true), Signal(sig);
    var s := Alone(t, Task(Going(0), Waiting, None, GroupStop, false), [], None, true);
    var stopped := Task(Halted(w), Ordered, Some(w), w, false);
    var gone := Task(Going(0), Gone, Some(w), w, false);
    var a1, a2, a3, a4 := [Halt(t, w), Tracer(t, true), Tracer(t, true)], [Call(Detach, [t]), go, go], [go, go, go],
        [Call(Stop, [t]), go, go];
    RunOfThree(s, Halt(t, w), Tracer(t, true), Tracer(t, true));
    HaltOfOne(t, sig);
    var s1 := Alone(t, stopped, [], None, true);
    assert Run(s, a1) == s1;
    RunOfThree(s1, Call(Detach, [t]), go, go);
    CallOfOne(t, stopped);
    StopOfOne(t, stopped, [DetachTask(t), SetDetached], true);
    var s2 := Alone(t, stopped, [DetachTask(t), SetDetached], None, true);
    assert Run(s1, a2) == s2;
    RunOfThree(s2, go, go, go);
    DetachOfOne(t, stopped);
    DetachedOne(t, gone);
    var s3 := Alone(t, gone, [], None, false);
    assert Run(s2, a3) == s3;
    RunOfThree(s3, Call(Stop, [t]), go, go);
    CallOfOne(t, gone);
    StopOfOne(t, gone, [], false);
    RunInTwo(s, a1, a2);
    RunInTwo(s, a1 + a2, a3);
    RunInTwo(s, a1 + a2 + a3, a4);
  }
}

/**
 Orders that the controlling goroutine gives to stopped threads, and letting the threads go: what
 happens, to whom, and with which signal.
 */
module RendezvousOrders {
  import opened Rendezvous
  import opened RendezvousSteps
  import opened RendezvousTheorems
  import opened RendezvousHistories

  // ----- Orders that are carried out in a stop -----

  function Obediences(order: seq<Tid>): (es: seq<Event>)
    ensures |es| == |order|
  {
    seq(|order|, i requires 0 <= i < |order| => Obeyed(order[i], false))
  }

  predicate Back(s: Sys, t: Tid) {
    IsAt(s, t, Ordered) || IsAt(s, t, Served(false))
  }

  /** The orders have been given to order[..k], and have been taken up by these threads. */
  predicate Giving(s: Sys, h: seq<Event>, order: seq<Tid>, k: nat) {
    && k <= |order| && s.todo == SendAll(order[k..]) + SettleAll(order) && h == Obediences(order[..k])
    && (forall i :: 0 <= i < k ==> Back(s, order[i]))
  }

  /** All of them have been given, and the threads order[..k] are done. */
  predicate Settling(s: Sys, h: seq<Event>, order: seq<Tid>, k: nat) {
    && k <= |order| && s.todo == SettleAll(order[k..]) && h == Obediences(order)
    && (forall i :: 0 <= i < |order| ==> Back(s, order[i]))
    && (forall i :: 0 <= i < k ==> IsAt(s, order[i], Ordered))
  }

  lemma SendAllParts(order: seq<Tid>, k: nat)
    requires k < |order|
    ensures SendAll(order[k..]) == [Send(order[k], false, false)] + SendAll(order[k + 1..])
    ensures SettleAll(order[k..]) == [Settled(order[k])] + SettleAll(order[k + 1..])
    ensures Obediences(order[..k + 1]) == Obediences(order[..k]) + [Obeyed(order[k], false)]
  {
  }

  lemma Gives(s: Sys, t: Tid, order: seq<Tid>, ok: bool)
    requires Inv(s) && Head(s.todo, Send(t, false, false))
    ensures var n := Next(s, Control(order, ok));
            || (n == s && EventsOf(s, Control(order, ok)) == [])
            || (&& n.todo == s.todo[1..] && EventsOf(s, Control(order, ok)) == [Obeyed(t, false)]
                && t in s.tasks && t in n.tasks && n.tasks == s.tasks[t := n.tasks[t]] && IsAt(n, t, Served(false)))
  {
    hide Ranges, Owed, TodoOk;
    if IsAt(s, t, Ordered) {
      assert TracerOk(s, t);
    }
  }

  lemma Settles(s: Sys, t: Tid, order: seq<Tid>, ok: bool)
    requires Inv(s) && Head(s.todo, Settled(t)) && Back(s, t)
    ensures var n := Next(s, Control(order, ok));
            && EventsOf(s, Control(order, ok)) == []
            && (n == s || (n.todo == s.todo[1..] && n.tasks == s.tasks && IsAt(s, t, Ordered)))
  {
    hide Ranges, Owed, TodoOk;
  }

  lemma BackStays(s: Sys, a: Action, t: Tid)
    requires a.Tracer? || a.Halt?
    ensures Back(s, t) ==> Back(Next(s, a), t)
    ensures IsAt(s, t, Ordered) ==> IsAt(Next(s, a), t, Ordered)
  {
  }

  lemma OthersStayBack(s: Sys, n: Sys, t: Tid, order: seq<Tid>, k: nat)
    requires k <= |order| && t in s.tasks && t in n.tasks && n.tasks == s.tasks[t := n.tasks[t]] && Back(n, t)
    requires forall i :: 0 <= i < k ==> Back(s, order[i])
    ensures forall i :: 0 <= i < k ==> Back(n, order[i])
  {
  }

  lemma GivingNext(s: Sys, a: Action, h: seq<Event>, order: seq<Tid>, k: nat)
    requires Inv(s) && Giving(s, h, order, k) && k < |order| && !a.Call?
    ensures var n, h' := Next(s, a), h + EventsOf(s, a);
            Giving(n, h', order, k) || Giving(n, h', order, k + 1)
  {
    hide Inv, Next, EventsOf, SendAll, SettleAll, Obediences, Back;
    SendAllParts(order, k);
    assert s.todo[1..] == SendAll(order[k + 1..]) + SettleAll(order);
    assert h + [] == h;
    if a.Control? {
      Gives(s, order[k], a.order, a.ok);
      var n := Next(s, a);
      if n != s {
        IsBack(n, order[k]);
        OthersStayBack(s, n, order[k], order, k);
      }
    } else {
      WaitsForStatus(s, a);
      forall i | 0 <= i < k
        ensures Back(Next(s, a), order[i])
      {
        BackStays(s, a, order[i]);
      }
    }
  }

  lemma IsBack(n: Sys, t: Tid)
    ensures IsAt(n, t, Served(false)) ==> Back(n, t)
  {
  }

  lemma SettlingNext(s: Sys, a: Action, h: seq<Event>, order: seq<Tid>, k: nat)
    requires Inv(s) && Settling(s, h, order, k) && k < |order| && !a.Call?
    ensures var n, h' := Next(s, a), h + EventsOf(s, a);
            Settling(n, h', order, k) || Settling(n, h', order, k + 1)
  {
    hide Inv, Next, EventsOf, SettleAll, Obediences, Back, SendAll;
    SendAllParts(order, k);
    assert s.todo[1..] == SettleAll(order[k + 1..]);
    assert h + [] == h;
    if a.Control? {
      Settles(s, order[k], a.order, a.ok);
      SameTasksBack(s, Next(s, a), order);
    } else {
      WaitsForStatus(s, a);
      forall i | 0 <= i < |order|
        ensures Back(Next(s, a), order[i]) && (i < k ==> IsAt(Next(s, a), order[i], Ordered))
      {
        BackStays(s, a, order[i]);
      }
    }
  }

  lemma SameTasksBack(s: Sys, n: Sys, order: seq<Tid>)
    requires n.tasks == s.tasks
    ensures forall i :: 0 <= i < |order| ==> (Back(n, order[i]) <==> Back(s, order[i]))
  {
  }

  lemma SettledNext(s: Sys, a: Action, h: seq<Event>, order: seq<Tid>)
    requires Inv(s) && Settling(s, h, order, |order|) && !a.Call?
    ensures Settling(Next(s, a), h + EventsOf(s, a), order, |order|)
  {
    hide Inv, Next, EventsOf, Obediences;
    assert h + [] == h;
    assert order[|order|..] == [] && SettleAll([]) == [];
    Idles(s, a);
    if a.Control? {
      IdleControl(s, a.order, a.ok);
    } else {
      forall i | 0 <= i < |order|
        ensures IsAt(Next(s, a), order[i], Ordered)
      {
        BackStays(s, a, order[i]);
      }
    }
  }

  lemma IdleControl(s: Sys, order: seq<Tid>, ok: bool)
    requires s.todo == []
    ensures Next(s, Control(order, ok)) == s
  {
  }

  ghost predicate InStop(s: Sys, h: seq<Event>, order: seq<Tid>) {
    exists k: nat :: (Giving(s, h, order, k) && k < |order|) || Settling(s, h, order, k)
  }

  /** After the last order has been given, all of them are awaited. */
  lemma AllGiven(s: Sys, h: seq<Event>, order: seq<Tid>)
    requires Giving(s, h, order, |order|)
    ensures Settling(s, h, order, 0)
  {
    assert order[|order|..] == [] && order[..|order|] == order && order[0..] == order;
    assert SendAll([]) + SettleAll(order) == SettleAll(order);
  }

  lemma SettlingIsInside(s: Sys, h: seq<Event>, order: seq<Tid>, k: nat)
    ensures Settling(s, h, order, k) ==> k <= |order|
  {
  }

  lemma InStopNext(s: Sys, a: Action, h: seq<Event>, order: seq<Tid>)
    requires Inv(s) && InStop(s, h, order) && !a.Call?
    ensures InStop(Next(s, a), h + EventsOf(s, a), order)
  {
    hide Inv, Next, EventsOf, Giving, Settling;
    var k: nat :| (Giving(s, h, order, k) && k < |order|) || Settling(s, h, order, k);
    SettlingIsInside(s, h, order, k);
    if Giving(s, h, order, k) && k < |order| {
      GivingNext(s, a, h, order, k);
      if k + 1 == |order| && Giving(Next(s, a), h + EventsOf(s, a), order, k + 1) {
        AllGiven(Next(s, a), h + EventsOf(s, a), order);
      }
    } else if k < |order| {
      SettlingNext(s, a, h, order, k);
    } else {
      SettledNext(s, a, h, order);
    }
  }

  lemma {:induction false} InStopRun(s: Sys, actions: seq<Action>, h: seq<Event>, order: seq<Tid>)
    requires Inv(s) && InStop(s, h, order) && NoCalls(actions)
    ensures InStop(Run(s, actions), h + History(s, actions), order)
    decreases actions
  {
    hide Inv, Next, InStop, EventsOf;
    if actions == [] {
      assert h + [] == h;
    } else {
      var a := actions[0];
      NextKeeps(s, a);
      InStopNext(s, a, h, order);
      InStopRun(Next(s, a), actions[1..], h + EventsOf(s, a), order);
      assert h + EventsOf(s, a) + History(Next(s, a), actions[1..]) == h + History(s, actions);
    }
  }

  lemma InStopMeans(e: Sys, h: seq<Event>, order: seq<Tid>)
    requires InStop(e, h, order)
    ensures h <= Obediences(order)
    ensures e.todo == [] ==> h == Obediences(order) && forall t :: t in order ==> IsAt(e, t, Ordered)
  {
    var k: nat :| (Giving(e, h, order, k) && k < |order|) || Settling(e, h, order, k);
    if Settling(e, h, order, k) && e.todo == [] {
      assert k == |order|;
    }
  }

  lemma InStopBegins(n: Sys, order: seq<Tid>)
    requires n.todo == SendAll(order) + SettleAll(order)
    ensures InStop(n, [], order)
  {
    assert order[0..] == order && order[..0] == [];
    assert Giving(n, [], order, 0);
    if order == [] {
      AllGiven(n, [], order);
    }
  }

  lemma InStopFrom(m: Sys, order: seq<Tid>, later: seq<Action>)
    requires Inv(m) && m.todo == [] && Ranges(order, m.tasks.Keys) && NoCalls(later)
    ensures var n := Next(m, Call(InStopFunctions, order));
            InStop(Run(n, later), History(n, later), order)
  {
    var n := Next(m, Call(InStopFunctions, order));
    NextKeeps(m, Call(InStopFunctions, order));
    hide Inv, InStop, SendAll, SettleAll, Run, History;
    InStopBegins(n, order);
    InStopRun(n, later, [], order);
    assert [] + History(n, later) == History(n, later);
  }

  /** Reading and setting registers: the order goes to every thread once, none of them runs for
      it, and when the goroutine goes on every tracer waits for orders again. */
  lemma InStopReachesEveryThread(s: Sys, before: seq<Action>, order: seq<Tid>, later: seq<Action>)
    requires IsInitial(s) && NoCalls(later)
    requires Run(s, before).todo == [] && Ranges(order, s.tasks.Keys)
    ensures var n := Next(Run(s, before), Call(InStopFunctions, order));
            var e, h := Run(n, later), History(n, later);
            && h <= Obediences(order)
            && (e.todo == [] ==> h == Obediences(order) && forall t :: t in s.tasks ==> IsAt(e, t, Ordered))
  {
    hide *;
    Reached(s, before);
    InStopFrom(Run(s, before), order, later);
    var n := Next(Run(s, before), Call(InStopFunctions, order));
    InStopMeans(Run(n, later), History(n, later), order);
    Ranged(order, s.tasks.Keys);
  }

  lemma Ranged(order: seq<Tid>, tids: set<Tid>)
    requires Ranges(order, tids)
    ensures forall t :: t in tids <==> t in order
  {
  }

  // ----- A system call in a stop -----

  /** The order to run a system call has not been given to t, is carried out, or is done. */
  predicate Injecting(s: Sys, h: seq<Event>, t: Tid) {
    || (s.todo == [Send(t, true, true), Settled(t)] && h == [])
    || (s.todo == [Settled(t)] && h == [Obeyed(t, true)] && (IsAt(s, t, Stepping(true)) || IsAt(s, t, Served(true))))
    || (s.todo == [] && h == [Obeyed(t, true)] && IsAt(s, t, Ordered))
  }

  lemma InjectingControl(s: Sys, h: seq<Event>, t: Tid, order: seq<Tid>, ok: bool)
    requires Inv(s) && Injecting(s, h, t)
    ensures Injecting(Next(s, Control(order, ok)), h + EventsOf(s, Control(order, ok)), t)
  {
    hide Ranges, Owed, TodoOk;
    assert [Send(t, true, true), Settled(t)][1..] == [Settled(t)] && [Settled(t)][1..] == [];
    assert h + [] == h && [] + [Obeyed(t, true)] == [Obeyed(t, true)];
  }

  lemma InjectingTracer(s: Sys, t: Tid, ok: bool)
    ensures var n := Next(s, Tracer(t, ok));
            && (IsAt(s, t, Stepping(true)) ==> IsAt(n, t, Stepping(true)) || IsAt(n, t, Served(true)))
            && (IsAt(s, t, Served(true)) ==> IsAt(n, t, Served(true)))
            && (IsAt(s, t, Ordered) ==> IsAt(n, t, Ordered))
  {
  }

  lemma InjectingNext(s: Sys, a: Action, h: seq<Event>, t: Tid)
    requires Inv(s) && Injecting(s, h, t) && !a.Call?
    ensures Injecting(Next(s, a), h + EventsOf(s, a), t)
  {
    hide Inv, Next, EventsOf, IsAt;
    assert h + [] == h;
    match a
    case Control(order, ok) => InjectingControl(s, h, t, order, ok);
    case Tracer(u, ok) =>
      WaitsForStatus(s, a);
      if u == t {
        InjectingTracer(s, t, ok);
      } else {
        OtherStaysAt(s, u, ok, t);
      }
    case Halt(u, w) =>
      WaitsForStatus(s, a);
      HaltsQuietly(s, u, w);
  }

  lemma OtherStaysAt(s: Sys, u: Tid, ok: bool, t: Tid)
    requires u != t
    ensures forall pc :: IsAt(Next(s, Tracer(u, ok)), t, pc) <==> IsAt(s, t, pc)
  {
    hide TracerTurn;
  }

  lemma {:induction false} InjectingRun(s: Sys, actions: seq<Action>, h: seq<Event>, t: Tid)
    requires Inv(s) && Injecting(s, h, t) && NoCalls(actions)
    ensures Injecting(Run(s, actions), h + History(s, actions), t)
    decreases actions
  {
    hide Inv, Next, Injecting, EventsOf;
    if actions == [] {
      assert h + [] == h;
    } else {
      var a := actions[0];
      NextKeeps(s, a);
      InjectingNext(s, a, h, t);
      InjectingRun(Next(s, a), actions[1..], h + EventsOf(s, a), t);
      assert h + EventsOf(s, a) + History(Next(s, a), actions[1..]) == h + History(s, actions);
    }
  }

  lemma InjectingFrom(m: Sys, t: Tid, order: seq<Tid>, later: seq<Action>)
    requires Inv(m) && m.todo == [] && OpOk(m, RunSyscall(t), order) && NoCalls(later)
    ensures var n := Next(m, Call(RunSyscall(t), order));
            Inv(Run(n, later)) && Injecting(Run(n, later), History(n, later), t)
  {
    var n := Next(m, Call(RunSyscall(t), order));
    NextKeeps(m, Call(RunSyscall(t), order));
    RunInv(n, later);
    assert Injecting(n, [], t);
    hide Inv, Injecting, Run, History;
    InjectingRun(n, later, [], t);
    assert [] + History(n, later) == History(n, later);
  }

  /** A system call: its thread runs for it, once, and no other thread does; when the call returns
      the thread is stopped again and its tracer waits for orders. */
  lemma SyscallRunsItsThread(s: Sys, before: seq<Action>, t: Tid, order: seq<Tid>, later: seq<Action>)
    requires IsInitial(s) && NoCalls(later)
    requires Run(s, before).todo == [] && OpOk(Run(s, before), RunSyscall(t), order)
    ensures var n := Next(Run(s, before), Call(RunSyscall(t), order));
            var e, h := Run(n, later), History(n, later);
            && h <= [Obeyed(t, true)]
            && (e.todo == [] ==> h == [Obeyed(t, true)] && IsAt(e, t, Ordered) && e.tasks[t].kernel.Halted?)
  {
    hide *;
    Reached(s, before);
    InjectingFrom(Run(s, before), t, order, later);
    var n := Next(Run(s, before), Call(RunSyscall(t), order));
    InjectingMeans(Run(n, later), History(n, later), t);
  }

  lemma InjectingMeans(e: Sys, h: seq<Event>, t: Tid)
    requires Inv(e) && Injecting(e, h, t)
    ensures h <= [Obeyed(t, true)]
    ensures e.todo == [] ==> h == [Obeyed(t, true)] && IsAt(e, t, Ordered) && e.tasks[t].kernel.Halted?
  {
    hide Owed, TodoOk;
    if e.todo == [] {
      assert TracerOk(e, t);
    }
  }

  // ----- Detach -----

  /** A thread is let go already, or its tracer is still to be told, or could not let it go. */
  predicate FreedOrDue(s: Sys, h: seq<Event>, t: Tid) {
    Freed(t, 0) in h || DetachTask(t) in s.todo || Detached(t) in s.todo
  }

  /** While t is waited for, either the kernel has let it go or its tracer failed to. */
  predicate FreedOrStuck(s: Sys, h: seq<Event>) {
    && s.todo != [] && s.todo[0].Detached? && s.todo[0].t in s.tasks
    && (Freed(s.todo[0].t, 0) in h || s.tasks[s.todo[0].t].pc == Gone)
  }

  ghost predicate Freeing(s: Sys, h: seq<Event>) {
    && (forall t :: t in s.tasks ==> FreedOrDue(s, h, t))
    && (s.todo != [] && s.todo[0].Detached? ==> FreedOrStuck(s, h))
  }

  /** Only the order to detach makes the goroutine wait for a tracer to detach. */
  lemma NewHead(s: Sys, order: seq<Tid>, ok: bool)
    requires Inv(s) && s.todo != [] && !s.todo[0].DetachTask? && !s.todo[0].Detached?
    ensures var n := Next(s, Control(order, ok));
            n.todo != [] ==> !n.todo[0].Detached?
  {
    RestIsFresh(s);
    hide Inv, TakeStep, MeetStep;
    NewHeadTaken(s, order);
    NewHeadMet(s, ok);
  }

  lemma NewHeadTaken(s: Sys, order: seq<Tid>)
    requires s.todo != [] && !s.todo[0].Detached? && (s.todo[1..] != [] ==> Fresh(s.todo[1..][0]))
    ensures var n := TakeStep(s, s.todo[0], order);
            n.todo != [] ==> !n.todo[0].Detached?
  {
  }

  lemma NewHeadMet(s: Sys, ok: bool)
    requires s.todo != [] && !s.todo[0].DetachTask? && !s.todo[0].Detached?
    requires s.todo[1..] != [] ==> Fresh(s.todo[1..][0])
    ensures var n := MeetStep(s, s.todo[0], ok);
            n.todo != [] ==> !n.todo[0].Detached?
  {
  }

  lemma DueStays(s: Sys, h: seq<Event>, order: seq<Tid>, ok: bool, t: Tid)
    requires FreedOrDue(s, h, t) && s.todo != [] && s.todo[0] != DetachTask(t) && s.todo[0] != Detached(t)
    ensures FreedOrDue(Next(s, Control(order, ok)), h + EventsOf(s, Control(order, ok)), t)
  {
    assert s.todo == [s.todo[0]] + s.todo[1..];
    hide ControlStep, EventsOf;
    if DetachTask(t) in s.todo {
      RestStays(s, order, ok, DetachTask(t));
    } else if Detached(t) in s.todo {
      RestStays(s, order, ok, Detached(t));
    }
  }

  lemma FreeingOther(s: Sys, h: seq<Event>, order: seq<Tid>, ok: bool)
    requires Inv(s) && Freeing(s, h) && s.todo != [] && !s.todo[0].DetachTask? && !s.todo[0].Detached?
    ensures Freeing(Next(s, Control(order, ok)), h + EventsOf(s, Control(order, ok)))
  {
    NextKeepsTasks(s, Control(order, ok));
    NewHead(s, order, ok);
    hide Inv, Next, EventsOf, FreedOrDue;
    forall t | t in s.tasks
      ensures FreedOrDue(Next(s, Control(order, ok)), h + EventsOf(s, Control(order, ok)), t)
    {
      DueStays(s, h, order, ok, t);
    }
  }

  lemma FreeingTells(s: Sys, h: seq<Event>, order: seq<Tid>, ok: bool)
    requires Inv(s) && Freeing(s, h) && s.todo != [] && s.todo[0].DetachTask?
    ensures Freeing(Next(s, Control(order, ok)), h + EventsOf(s, Control(order, ok)))
  {
    var t := s.todo[0].t;
    NextKeepsTasks(s, Control(order, ok));
    DetachTells(s, t, order, ok);
    hide Inv, Next, EventsOf;
    var n := Next(s, Control(order, ok));
    assert h + [] == h;
    if n != s {
      assert n.todo[0] == Detached(t);
      forall u | u in s.tasks && u != t
        ensures FreedOrDue(n, h + EventsOf(s, Control(order, ok)), u)
      {
        DueStays(s, h, order, ok, u);
      }
    }
  }

  lemma FreeingHears(s: Sys, h: seq<Event>, order: seq<Tid>, ok: bool)
    requires Inv(s) && Freeing(s, h) && s.todo != [] && s.todo[0].Detached?
    ensures Freeing(Next(s, Control(order, ok)), h + EventsOf(s, Control(order, ok)))
  {
    var t := s.todo[0].t;
    NextKeepsTasks(s, Control(order, ok));
    DetachHears(s, t, order, ok);
    RestIsFresh(s);
    hide Inv, Next, EventsOf;
    var n := Next(s, Control(order, ok));
    assert h + [] == h;
    if n != s {
      forall u | u in s.tasks && u != t
        ensures FreedOrDue(n, h + EventsOf(s, Control(order, ok)), u)
      {
        DueStays(s, h, order, ok, u);
      }
    }
  }

  lemma FreeingMoves(s: Sys, a: Action, h: seq<Event>)
    requires Inv(s) && Freeing(s, h) && (a.Tracer? || a.Halt?)
    ensures Freeing(Next(s, a), h + EventsOf(s, a))
  {
    NextKeepsTasks(s, a);
    TodoStays(s, a);
    hide Inv, Next, EventsOf;
    var n := Next(s, a);
    forall t | t in s.tasks
      ensures FreedOrDue(n, h + EventsOf(s, a), t)
    {
      assert FreedOrDue(s, h, t);
    }
  }

  lemma TodoStays(s: Sys, a: Action)
    requires a.Tracer? || a.Halt?
    ensures Next(s, a).todo == s.todo
    ensures forall t :: IsAt(s, t, Gone) ==> IsAt(Next(s, a), t, Gone)
  {
  }

  lemma {:induction false} FreeingRun(s: Sys, actions: seq<Action>, h: seq<Event>)
    requires Inv(s) && Freeing(s, h) && NoCalls(actions)
    ensures Freeing(Run(s, actions), h + History(s, actions))
    decreases actions
  {
    hide Inv, Next, Freeing, EventsOf;
    if actions == [] {
      assert h + [] == h;
    } else {
      var a := actions[0];
      NextKeeps(s, a);
      FreeingNext(s, a, h);
      FreeingRun(Next(s, a), actions[1..], h + EventsOf(s, a));
      assert h + EventsOf(s, a) + History(Next(s, a), actions[1..]) == h + History(s, actions);
    }
  }

  lemma FreeingNext(s: Sys, a: Action, h: seq<Event>)
    requires Inv(s) && Freeing(s, h) && !a.Call?
    ensures Freeing(Next(s, a), h + EventsOf(s, a))
  {
    hide Inv, Next, EventsOf, Freeing;
    assert h + [] == h;
    if !a.Control? {
      FreeingMoves(s, a, h);
    } else if s.todo == [] {
      Idles(s, a);
      IdleControl(s, a.order, a.ok);
    } else if s.todo[0].DetachTask? {
      FreeingTells(s, h, a.order, a.ok);
    } else if s.todo[0].Detached? {
      FreeingHears(s, h, a.order, a.ok);
    } else {
      FreeingOther(s, h, a.order, a.ok);
    }
  }

  lemma DetachFrom(m: Sys, order: seq<Tid>, later: seq<Action>)
    requires Inv(m) && m.todo == [] && Ranges(order, m.tasks.Keys) && NoCalls(later)
    ensures var n := Next(m, Call(Detach, order));
            Freeing(Run(n, later), History(n, later)) && Run(n, later).tasks.Keys == m.tasks.Keys
  {
    var n := Next(m, Call(Detach, order));
    NextKeeps(m, Call(Detach, order));
    TasksStay(n, later);
    ProgramOk(m, Detach, order);
    hide Inv, Run, History, DetachAll;
    assert n.todo != [] ==> n.todo[0] in n.todo;
    assert Freeing(n, []);
    FreeingRun(n, later, []);
    assert [] + History(n, later) == History(n, later);
  }

  /** When Detach returns, the kernel has let every thread go on, with no signal. */
  lemma DetachFreesEveryThread(s: Sys, before: seq<Action>, order: seq<Tid>, later: seq<Action>)
    requires IsInitial(s) && NoCalls(later)
    requires Run(s, before).todo == [] && Ranges(order, s.tasks.Keys)
    ensures var n := Next(Run(s, before), Call(Detach, order));
            Run(n, later).todo == [] ==> forall t :: t in s.tasks ==> Freed(t, 0) in History(n, later)
  {
    hide *;
    Reached(s, before);
    DetachFrom(Run(s, before), order, later);
    var n := Next(Run(s, before), Call(Detach, order));
    FreeingMeans(Run(n, later), History(n, later));
  }

  lemma FreeingMeans(e: Sys, h: seq<Event>)
    requires Freeing(e, h)
    ensures e.todo == [] ==> forall t :: t in e.tasks ==> Freed(t, 0) in h
  {
  }

  lemma DetachTells(s: Sys, t: Tid, order: seq<Tid>, ok: bool)
    requires Inv(s) && Head(s.todo, DetachTask(t))
    ensures var n, now := Next(s, Control(order, ok)), EventsOf(s, Control(order, ok));
            || (n == s && now == [])
            || (n.todo == [Detached(t)] + s.todo[1..] && t in n.tasks
                && (now == [Freed(t, 0)] || (now == [] && n.tasks[t].pc == Gone)))
  {
    hide Ranges, Owed, TodoOk;
    if IsAt(s, t, Ordered) {
      assert TracerOk(s, t);
    }
  }

  lemma DetachHears(s: Sys, t: Tid, order: seq<Tid>, ok: bool)
    requires Head(s.todo, Detached(t))
    ensures var n, now := Next(s, Control(order, ok)), EventsOf(s, Control(order, ok));
            now == [] && (n == s || (n.todo == s.todo[1..] && IsAt(s, t, Leaving)))
  {
    hide Ranges;
  }

  // ----- Signals -----

  /** In every run a thread goes on with a signal only when its tracer was told so by the goroutine;
      without one it goes on from system call stops, for orders in a stop, and when it is let go. */
  lemma NoStraySignals(s: Sys, actions: seq<Action>, a: Action, t: Tid)
    requires IsInitial(s)
    ensures var e := Run(s, actions);
            var n := Next(e, a);
            IsFreed(e, n, t) && n.tasks[t].kernel.injected != 0 ==>
              && a == Tracer(t, true) && e.tasks[t].pc == Resuming(n.tasks[t].kernel.injected)
              && Head(e.todo, Continued(t))
  {
    hide *;
    Reached(s, actions);
    NoneHere(Run(s, actions), a, t);
  }

  lemma NoneHere(e: Sys, a: Action, t: Tid)
    requires Inv(e)
    ensures var n := Next(e, a);
            IsFreed(e, n, t) && n.tasks[t].kernel.injected != 0 ==>
              && a == Tracer(t, true) && e.tasks[t].pc == Resuming(n.tasks[t].kernel.injected)
              && Head(e.todo, Continued(t))
  {
    hide Inv, ControlStep, OpOk, Program;
    match a
    case Control(order, ok) => ControlInjectsNone(e, order, ok, t);
    case Tracer(u, ok) =>
      if u in e.tasks && u == t {
        ResumingIsAwaited(e, t);
      }
    case _ =>
  }

  lemma ResumingIsAwaited(e: Sys, t: Tid)
    requires Inv(e) && t in e.tasks
    ensures e.tasks[t].pc.Resuming? ==> Head(e.todo, Continued(t))
  {
    hide TodoOk, Owed, HandOk, AttachedOk;
    assert TracerOk(e, t);
  }

  lemma TakingFreesNone(s: Sys, order: seq<Tid>, t: Tid)
    requires s.todo != []
    ensures !IsFreed(s, TakeStep(s, s.todo[0], order), t)
  {
    hide ResumeAll;
  }

  lemma MeetingInjectsNone(s: Sys, ok: bool, t: Tid)
    requires s.todo != []
    ensures var n := MeetStep(s, s.todo[0], ok);
            IsFreed(s, n, t) ==> n.tasks[t].kernel.injected == 0
  {
  }

  lemma ControlInjectsNone(s: Sys, order: seq<Tid>, ok: bool, t: Tid)
    ensures var n := Next(s, Control(order, ok));
            IsFreed(s, n, t) ==> n.tasks[t].kernel.injected == 0
  {
    hide Ranges, TakeStep, MeetStep;
    if s.todo != [] {
      TakingFreesNone(s, order, t);
      MeetingInjectsNone(s, ok, t);
    }
  }
}

/**
 Every step of a tracer, of the kernel and of the controlling goroutine keeps the invariant.
 */
module RendezvousSteps {
  import opened Results
  import opened Rendezvous

  // ----- Tracers and the kernel -----

  lemma TaskKeeps(s: Sys, t: Tid, k: Task)
    requires Inv(s) && t in s.tasks
    requires TracerOk(SetTask(s, t, k), t)
    requires InHand(s, t) ==> k.slot == None && (k.pc == Ordered || k.pc == Gone)
    requires s.tasks[t].pc == Gone ==> k.pc == Gone
    ensures Inv(SetTask(s, t, k))
  {
    var s' := SetTask(s, t, k);
    assert s'.tasks.Keys == s.tasks.Keys;
    forall u | u in s'.tasks
      ensures TracerOk(s', u)
    {
      assert TracerOk(s, u);
    }
  }

  lemma TracerKeeps(s: Sys, t: Tid, ok: bool)
    requires Inv(s) && t in s.tasks
    ensures Inv(SetTask(s, t, TracerTurn(s.tasks[t], ok)))
  {
    assert TracerOk(s, t);
    TaskKeeps(s, t, TracerTurn(s.tasks[t], ok));
  }

  lemma HaltKeeps(s: Sys, t: Tid, status: Status)
    requires Inv(s) && t in s.tasks
    ensures Inv(SetTask(s, t, HaltTask(s.tasks[t], status)))
  {
    assert TracerOk(s, t);
    TaskKeeps(s, t, HaltTask(s.tasks[t], status));
  }

  // ----- The list of commands -----

  predicate Plain(c: Cmd) {
    Fresh(c) && !c.Send? && !c.SetDetached?
  }

  lemma {:induction false} PlainBefore(a: seq<Cmd>, todo: seq<Cmd>, tids: set<Tid>)
    requires forall c :: c in a ==> Plain(c) && KnownTask(c, tids)
    requires TodoOk(todo, tids) && forall c :: c in todo ==> Fresh(c)
    ensures TodoOk(a + todo, tids)
    ensures forall c :: c in a + todo ==> Fresh(c)
    decreases a
  {
    if a == [] {
      assert a + todo == todo;
    } else {
      PlainBefore(a[1..], todo, tids);
      assert (a + todo)[0] == a[0] && a[0] in a;
      assert (a + todo)[1..] == a[1..] + todo;
    }
  }

  /** The same in one command, which need not be fresh. */
  lemma FirstBecomes(c: Cmd, todo: seq<Cmd>, tids: set<Tid>)
    requires todo != [] && TodoOk(todo, tids) && KnownTask(c, tids) && !c.Send? && !c.SetDetached?
    ensures TodoOk([c] + todo[1..], tids)
  {
    assert ([c] + todo[1..])[1..] == todo[1..];
  }

  lemma NotOwed(todo: seq<Cmd>, t: Tid)
    requires todo != [] && !todo[0].Send? && !todo[0].Settled?
    ensures !Owed(todo, t)
  {
  }

  /** What stays of what a tracer may rely on. */
  predicate Relies(s: Sys, s': Sys, u: Tid) {
    && !Head(s.todo, Continued(u)) && !Head(s.todo, Detached(u))
    && (Owed(s.todo, u) ==> Owed(s'.todo, u))
    && (Detaching(s.todo) && s'.attached ==> Detaching(s'.todo))
    && (s.attached == s'.attached || !s'.attached)
    && (InHand(s', u) ==> s'.hand == s.hand)
  }

  lemma OtherStays(s: Sys, s': Sys, u: Tid)
    requires u in s.tasks && u in s'.tasks && s'.tasks[u] == s.tasks[u]
    requires TracerOk(s, u) && Relies(s, s', u)
    ensures TracerOk(s', u)
  {
  }

  /** A step of the controlling goroutine that is no part of Detach: the first command makes
      place for the commands in a, and at most task t changes. */
  lemma ControlKeeps(s: Sys, s': Sys, t: Tid, a: seq<Cmd>)
    requires Inv(s) && s.todo != [] && !DetachPart(s.todo[0])
    requires s'.todo == a + s.todo[1..] && forall c :: c in a ==> !DetachPart(c)
    requires s'.leader == s.leader && s'.attached == s.attached && t in s.tasks
    requires t in s'.tasks && s'.tasks == s.tasks[t := s'.tasks[t]]
    requires (s.tasks[t].pc == Gone ==> s'.tasks[t].pc == Gone)
    requires TodoOk(s'.todo, s'.tasks.Keys) && HandOk(s') && TracerOk(s', t)
    requires forall u :: u != t ==> Relies(s, s', u)
    ensures Inv(s')
  {
    assert s'.tasks.Keys == s.tasks.Keys;
    forall u | u in s'.tasks
      ensures TracerOk(s', u)
    {
      if u != t {
        hide Owed, TodoOk, HandOk, AttachedOk;
        OtherStays(s, s', u);
      }
    }
    SamePlan(s, s', a);
  }

  lemma SamePlan(s: Sys, s': Sys, a: seq<Cmd>)
    requires AttachedOk(s) && s.todo != [] && !DetachPart(s.todo[0])
    requires s'.todo == a + s.todo[1..] && forall c :: c in a ==> !DetachPart(c)
    requires s'.attached == s.attached && s'.tasks.Keys == s.tasks.Keys
    requires forall t :: t in s.tasks && s.tasks[t].pc == Gone ==> s'.tasks[t].pc == Gone
    ensures AttachedOk(s')
  {
    assert s.todo == [s.todo[0]] + s.todo[1..];
    assert forall c :: DetachPart(c) ==> (c in s'.todo <==> c in s.todo);
  }

  // ----- Taking statuses and putting them back -----

  lemma NoneOwed(s: Sys)
    requires Inv(s) && s.todo != [] && !s.todo[0].Send? && !s.todo[0].Settled?
    ensures forall u :: !Owed(s.todo, u)
  {
    forall u
      ensures !Owed(s.todo, u)
    {
      NotOwed(s.todo, u);
    }
  }

  /** Nobody but a tracer that the controlling goroutine waits for is anywhere but in the select
      when it holds a status. */
  lemma FullIsOrdered(s: Sys, t: Tid)
    requires Inv(s) && IsFull(s, t) && s.todo != [] && (forall u :: !Owed(s.todo, u))
    requires !s.todo[0].Continued? && !s.todo[0].Detached?
    ensures s.tasks[t].pc == Ordered || s.tasks[t].pc == Gone
    ensures !InHand(s, t) && s.tasks[t].slot.value == s.tasks[t].reported
  {
    assert TracerOk(s, t);
  }

  lemma TakesStatus(s: Sys, t: Tid, c: Cmd)
    requires Inv(s) && IsFull(s, t) && s.todo != []
    requires s.todo[0] == StopTask(t) || s.todo[0] == TakeBack(t) || (s.todo[0].Pause? && t == s.leader)
    requires c == PutBack(t) || (c.Judge? && t == s.leader)
    ensures Inv(Become(Take(s, t), c))
  {
    var s' := Become(Take(s, t), c);
    NoneOwed(s);
    FullIsOrdered(s, t);
    assert TracerOk(s, t);
    FirstBecomes(c, s.todo, s.tasks.Keys);
    assert s'.tasks.Keys == s.tasks.Keys;
    ControlKeeps(s, s', t, [c]);
  }

  lemma StopTaskKeeps(s: Sys, t: Tid)
    requires Inv(s) && Head(s.todo, StopTask(t))
    ensures Inv(TakeStep(s, StopTask(t), []))
  {
    if IsFull(s, t) {
      TakesStatus(s, t, PutBack(t));
    } else {
      NoneOwed(s);
      assert TracerOk(s, t);
      FirstBecomes(TakeBack(t), s.todo, s.tasks.Keys);
      assert s.tasks[t := s.tasks[t]] == s.tasks;
      ControlKeeps(s, Become(s, TakeBack(t)), t, [TakeBack(t)]);
    }
  }

  lemma PutBackKeeps(s: Sys, t: Tid)
    requires Inv(s) && Head(s.todo, PutBack(t))
    ensures Inv(TakeStep(s, PutBack(t), []))
  {
    var s' := TakeStep(s, PutBack(t), []);
    NoneOwed(s);
    assert TracerOk(s, t);
    assert s'.tasks.Keys == s.tasks.Keys;
    assert s.todo != [] && s.todo[1..] == [] + s.todo[1..];
    RestIsFresh(s);
    ControlKeeps(s, s', t, []);
  }

  /** After the first command, the next one is fresh. */
  lemma RestIsFresh(s: Sys)
    requires Inv(s) && s.todo != []
    ensures TodoOk(s.todo[1..], s.tasks.Keys) && forall c :: c in s.todo[1..] ==> Fresh(c)
    ensures s.todo[1..] != [] ==> Fresh(s.todo[1..][0])
  {
    assert s.todo[1..] != [] ==> s.todo[1..][0] in s.todo[1..];
  }

  lemma ResumesAreKnown(order: seq<Tid>, sig: Signo, tids: set<Tid>)
    requires Ranges(order, tids)
    ensures forall c :: c in ResumeAll(order, sig) ==> c.Resume? && Plain(c) && KnownTask(c, tids) && !DetachPart(c)
  {
  }

  /** The leader's status is used up, and all tasks are told to go on. */
  lemma ResumingKeeps(s: Sys, s': Sys, order: seq<Tid>, sig: Signo, more: seq<Cmd>)
    requires Inv(s) && s.todo != [] && Ranges(order, s.tasks.Keys)
    requires || ((s.todo[0].Await? || s.todo[0].Drop?) && IsFull(s, s.leader)
                 && s' == SetTask(s, s.leader, s.tasks[s.leader].(slot := None)).(todo := s'.todo))
             || (s.todo[0].Judge? && s' == s.(hand := None, todo := s'.todo))
    requires s'.todo == ResumeAll(order, sig) + more + s.todo[1..]
    requires forall c :: c in more ==> c.Await? || c.Pause?
    ensures Inv(s')
  {
    NoneOwed(s);
    RestIsFresh(s);
    ResumesAreKnown(order, sig, s.tasks.Keys);
    var a := ResumeAll(order, sig) + more;
    PlainBefore(a, s.todo[1..], s.tasks.Keys);
    assert TracerOk(s, s.leader);
    assert s'.tasks.Keys == s.tasks.Keys;
    assert s'.todo != [] ==> s'.todo[0] in s'.todo;
    if s.todo[0].Judge? {
      assert s'.tasks == s.tasks[s.leader := s'.tasks[s.leader]];
    } else {
      FullIsOrdered(s, s.leader);
    }
    ControlKeeps(s, s', s.leader, a);
  }

  lemma JudgeKeeps(s: Sys, sig: Signo, order: seq<Tid>)
    requires Inv(s) && Head(s.todo, Judge(sig)) && Ranges(order, s.tasks.Keys)
    ensures Inv(TakeStep(s, Judge(sig), order))
  {
    if StopSignal(s.hand.value.status) == sig {
      NoneOwed(s);
      assert TracerOk(s, s.leader);
      FirstBecomes(PutBack(s.leader), s.todo, s.tasks.Keys);
      assert s.tasks[s.leader := s.tasks[s.leader]] == s.tasks;
      ControlKeeps(s, Become(s, PutBack(s.leader)), s.leader, [PutBack(s.leader)]);
    } else {
      ResumingKeeps(s, TakeStep(s, Judge(sig), order), order, StopSignal(s.hand.value.status), [Pause(sig)]);
    }
  }

  lemma TakeStepKeeps(s: Sys, order: seq<Tid>)
    requires Inv(s) && s.todo != [] && Takes(s.todo[0]) && Ranges(order, s.tasks.Keys)
    ensures Inv(TakeStep(s, s.todo[0], order))
  {
    hide Inv, Owed, TodoOk, HandOk, AttachedOk, TracerOk, Ranges, ResumeAll;
    assert s.leader in s.tasks by { LeaderIsTask(s); }
    match s.todo[0]
    case StopTask(t) => StopTaskKeeps(s, t);
    case TakeBack(t) => if IsFull(s, t) { TakesStatus(s, t, PutBack(t)); }
    case PutBack(t) => PutBackKeeps(s, t);
    case Await(sig) =>
      if IsFull(s, s.leader) {
        var g := StopSignal(s.tasks[s.leader].slot.value);
        ResumingKeeps(s, TakeStep(s, s.todo[0], order), order, g, if g == sig then [] else [Await(sig)]);
      }
    case Pause(sig) => if IsFull(s, s.leader) { TakesStatus(s, s.leader, Judge(sig)); }
    case Judge(sig) => JudgeKeeps(s, sig, order);
    case Drop(sig) =>
      if IsFull(s, s.leader) {
        assert ResumeAll(order, sig) + [] + s.todo[1..] == ResumeAll(order, sig) + s.todo[1..];
        ResumingKeeps(s, TakeStep(s, s.todo[0], order), order, sig, []);
      }
    case _ =>
  }

  lemma LeaderIsTask(s: Sys)
    requires Inv(s)
    ensures s.leader in s.tasks
  {
  }

  // ----- Meeting a tracer -----

  lemma ResumeKeeps(s: Sys, t: Tid, sig: Signo)
    requires Inv(s) && Head(s.todo, Resume(t, sig)) && IsAt(s, t, Ordered)
    ensures Inv(MeetStep(s, Resume(t, sig), true))
  {
    var s' := MeetStep(s, Resume(t, sig), true);
    NoneOwed(s);
    assert TracerOk(s, t);
    FirstBecomes(Continued(t), s.todo, s.tasks.Keys);
    assert s'.tasks.Keys == s.tasks.Keys;
    ControlKeeps(s, s', t, [Continued(t)]);
  }

  lemma ContinuedKeeps(s: Sys, t: Tid)
    requires Inv(s) && Head(s.todo, Continued(t)) && IsAt(s, t, Acking)
    ensures Inv(MeetStep(s, Continued(t), true))
  {
    var s' := MeetStep(s, Continued(t), true);
    NoneOwed(s);
    assert TracerOk(s, t);
    RestIsFresh(s);
    assert s'.tasks.Keys == s.tasks.Keys;
    assert s.todo[1..] == [] + s.todo[1..];
    ControlKeeps(s, s', t, []);
  }

  lemma SendKeeps(s: Sys, t: Tid, resumes: bool, reply: bool)
    requires Inv(s) && Head(s.todo, Send(t, resumes, reply)) && IsAt(s, t, Ordered)
    ensures Inv(MeetStep(s, Send(t, resumes, reply), true))
  {
    hide TracerOk, HandOk, Owed, Relies, AttachedOk, MeetStep;
    var s' := MeetStep(s, Send(t, resumes, reply), true);
    RestIsFresh(s);
    Sent(s, t, resumes, reply);
    forall u | u != t
      ensures Relies(s, s', u)
    {
      OthersRely(s, t, resumes, reply, u);
    }
    assert s.todo[1..] == [] + s.todo[1..];
    ControlKeeps(s, s', t, []);
  }

  lemma Sent(s: Sys, t: Tid, resumes: bool, reply: bool)
    requires Inv(s) && Head(s.todo, Send(t, resumes, reply)) && IsAt(s, t, Ordered)
    ensures var s' := MeetStep(s, Send(t, resumes, reply), true);
            && s'.todo == s.todo[1..] && s'.leader == s.leader && s'.attached == s.attached
            && s'.tasks.Keys == s.tasks.Keys && s'.tasks == s.tasks[t := s'.tasks[t]]
            && TracerOk(s', t) && HandOk(s')
  {
    hide Relies, AttachedOk, KnownTask;
    RestIsFresh(s);
    assert TracerOk(s, t);
  }

  lemma OthersRely(s: Sys, t: Tid, resumes: bool, reply: bool, u: Tid)
    requires Inv(s) && Head(s.todo, Send(t, resumes, reply)) && IsAt(s, t, Ordered) && u != t
    ensures Relies(s, MeetStep(s, Send(t, resumes, reply), true), u)
  {
    hide TracerOk, HandOk, KnownTask, TodoOk;
    assert s.todo == [s.todo[0]] + s.todo[1..];
  }

  lemma SettledKeeps(s: Sys, t: Tid)
    requires Inv(s) && Head(s.todo, Settled(t)) && t in s.tasks
    ensures Inv(MeetStep(s, Settled(t), true))
  {
    var s' := MeetStep(s, Settled(t), true);
    assert TracerOk(s, t);
    if s' != s {
      RestIsFresh(s);
      assert s'.tasks.Keys == s.tasks.Keys;
      assert s.tasks[t := s'.tasks[t]] == s'.tasks;
      assert s.todo[1..] == [] + s.todo[1..];
      ControlKeeps(s, s', t, []);
    }
  }

  lemma KillKeeps(s: Sys, sig: Signo)
    requires Inv(s) && Head(s.todo, Kill(sig))
    ensures Inv(Pop(s))
  {
    NoneOwed(s);
    RestIsFresh(s);
    assert TracerOk(s, s.leader);
    assert s.tasks[s.leader := s.tasks[s.leader]] == s.tasks;
    assert s.todo[1..] == [] + s.todo[1..];
    ControlKeeps(s, Pop(s), s.leader, []);
  }

  // ----- Detaching -----

  /** A step of Detach: the first command is done, or becomes another one, and only task t changes. */
  predicate DetachStep(s: Sys, s': Sys, t: Tid) {
    && s.todo != [] && t in s.tasks && t in s'.tasks
    && s' == s.(todo := s'.todo, tasks := s.tasks[t := s'.tasks[t]])
    && s'.tasks[t].slot == s.tasks[t].slot && s'.tasks[t].reported == s.tasks[t].reported
    && (|| (&& s.todo[0] == DetachTask(t) && s'.todo == [Detached(t)] + s.todo[1..]
            && (s'.tasks[t].pc == Gone || (s'.tasks[t].pc == Leaving && s.tasks[t].pc == Ordered)))
        || (s.todo[0] == Detached(t) && s'.todo == s.todo[1..] && s'.tasks[t].pc == Gone))
  }

  lemma DetachKeeps(s: Sys, s': Sys, t: Tid)
    requires Inv(s) && DetachStep(s, s', t) && Detaching(s'.todo)
    ensures Inv(s')
  {
    DetachTodoOk(s, s', t);
    DetachHandOk(s, s', t);
    DetachTracerOk(s, s', t);
    DetachPlan(s, s', t);
    assert s'.tasks.Keys == s.tasks.Keys;
    forall u | u in s'.tasks && u != t
      ensures TracerOk(s', u)
    {
      DetachOther(s, s', t, u);
    }
    hide DetachStep, TodoOk, HandOk, AttachedOk, TracerOk;
  }

  lemma DetachTodoOk(s: Sys, s': Sys, t: Tid)
    requires Inv(s) && DetachStep(s, s', t)
    ensures TodoOk(s'.todo, s.tasks.Keys)
  {
    RestIsFresh(s);
    if s.todo[0] == DetachTask(t) {
      FirstBecomes(Detached(t), s.todo, s.tasks.Keys);
    }
  }

  lemma DetachHandOk(s: Sys, s': Sys, t: Tid)
    requires Inv(s) && DetachStep(s, s', t)
    ensures HandOk(s')
  {
    RestIsFresh(s);
    hide TodoOk, Owed, AttachedOk, TracerOk;
  }

  lemma DetachTracerOk(s: Sys, s': Sys, t: Tid)
    requires Inv(s) && DetachStep(s, s', t) && Detaching(s'.todo)
    ensures TracerOk(s', t)
  {
    assert TracerOk(s, t);
    hide TodoOk, Owed, AttachedOk, HandOk, Detaching;
  }

  lemma DetachOther(s: Sys, s': Sys, t: Tid, u: Tid)
    requires Inv(s) && DetachStep(s, s', t) && Detaching(s'.todo) && u in s.tasks && u != t
    ensures u in s'.tasks && TracerOk(s', u)
  {
    NoneOwed(s);
    assert TracerOk(s, u);
    hide TodoOk, Owed, AttachedOk, HandOk, TracerOk;
    OtherStays(s, s', u);
  }

  lemma DetachPlan(s: Sys, s': Sys, t: Tid)
    requires AttachedOk(s) && DetachStep(s, s', t) && Detaching(s'.todo)
    ensures AttachedOk(s')
  {
    assert s.todo == [s.todo[0]] + s.todo[1..];
    assert s.todo[0] in s.todo;
  }

  lemma SetDetachedKeeps(s: Sys)
    requires Inv(s) && Head(s.todo, SetDetached)
    ensures Inv(Pop(s).(attached := false))
  {
    var s' := Pop(s).(attached := false);
    assert s.todo == [SetDetached];
    NoneOwed(s);
    forall u | u in s'.tasks
      ensures TracerOk(s', u)
    {
      assert TracerOk(s, u);
    }
  }

  lemma HeadFacts(s: Sys)
    requires Inv(s) && s.todo != []
    ensures KnownTask(s.todo[0], s.tasks.Keys)
    ensures s.todo[0].DetachTask? || s.todo[0].Detached? ==>
              Detaching(s.todo[1..]) && forall c :: Detaching([c] + s.todo[1..])
  {
    assert s.todo == [s.todo[0]] + s.todo[1..] && s.todo[0] in s.todo;
  }

  lemma MeetStepKeeps(s: Sys, ok: bool)
    requires Inv(s) && s.todo != []
    ensures Inv(MeetStep(s, s.todo[0], ok))
  {
    hide Inv, Owed, TodoOk, HandOk, AttachedOk, TracerOk;
    var c := s.todo[0];
    HeadFacts(s);
    match c
    case Resume(t, sig) => if IsAt(s, t, Ordered) { ResumeKeeps(s, t, sig); }
    case Continued(t) => if IsAt(s, t, Acking) { ContinuedKeeps(s, t); }
    case Send(t, resumes, reply) => if IsAt(s, t, Ordered) { SendKeeps(s, t, resumes, reply); }
    case Settled(t) => SettledKeeps(s, t);
    case DetachTask(t) =>
      if IsAt(s, t, Ordered) {
        DetachKeeps(s, MeetStep(s, c, ok), t);
      }
    case Detached(t) => if IsAt(s, t, Leaving) { DetachKeeps(s, MeetStep(s, c, ok), t); }
    case Kill(sig) => KillKeeps(s, sig);
    case SetDetached => SetDetachedKeeps(s);
    case _ =>
  }

  // ----- Operations -----

  lemma AllPlain(a: seq<Cmd>, tids: set<Tid>)
    requires forall c :: c in a ==> Plain(c) && KnownTask(c, tids)
    ensures TodoOk(a, tids)
  {
    PlainBefore(a, [], tids);
    assert a + [] == a;
  }

  /** Every task's order is awaited after all of them are given. */
  lemma {:induction false} SettlesAreOwed(order: seq<Tid>, t: Tid)
    requires t in order
    ensures Owed(SettleAll(order), t)
    decreases order
  {
    assert SettleAll(order)[1..] == SettleAll(order[1..]);
    if order[0] != t {
      SettlesAreOwed(order[1..], t);
    }
  }

  lemma {:induction false} OwedBehindSends(order: seq<Tid>, rest: seq<Cmd>, t: Tid)
    requires Owed(rest, t)
    ensures Owed(SendAll(order) + rest, t)
    decreases order
  {
    if order == [] {
      assert SendAll(order) + rest == rest;
    } else {
      OwedBehindSends(order[1..], rest, t);
      assert (SendAll(order) + rest)[1..] == SendAll(order[1..]) + rest;
    }
  }

  lemma {:induction false} SendsBefore(order: seq<Tid>, rest: seq<Cmd>, tids: set<Tid>)
    requires forall t :: t in order ==> t in tids && Owed(rest, t)
    requires TodoOk(rest, tids) && forall c :: c in rest ==> Fresh(c)
    ensures TodoOk(SendAll(order) + rest, tids)
    decreases order
  {
    if order == [] {
      assert SendAll(order) + rest == rest;
    } else {
      SendsBefore(order[1..], rest, tids);
      assert (SendAll(order) + rest)[1..] == SendAll(order[1..]) + rest;
      OwedBehindSends(order[1..], rest, order[0]);
    }
  }

  lemma {:induction false} DetachProgram(order: seq<Tid>, tids: set<Tid>)
    requires forall t :: t in order ==> t in tids
    ensures TodoOk(DetachAll(order), tids) && Detaching(DetachAll(order))
    ensures forall c :: c in DetachAll(order) ==> Fresh(c)
    ensures forall t :: t in order ==> DetachTask(t) in DetachAll(order)
    decreases order
  {
    if order != [] {
      var t, rest := order[0], DetachAll(order[1..]);
      DetachProgram(order[1..], tids);
      PlainBefore([StopTask(t), DetachTask(t)], rest, tids);
      assert order == [t] + order[1..];
      assert SetDetached in rest;
    }
  }

  lemma ProgramOk(s: Sys, op: Op, order: seq<Tid>)
    requires Inv(s) && OpOk(s, op, order)
    ensures var p := Program(s, op, order);
            && TodoOk(p, s.tasks.Keys) && (forall c :: c in p ==> Fresh(c))
            && (op.Detach? ==> Detaching(p) && forall t :: t in s.tasks ==> DetachTask(t) in p)
            && (!op.Detach? ==> forall c :: c in p ==> !DetachPart(c))
  {
    var p, tids := Program(s, op, order), s.tasks.Keys;
    hide Inv;
    match op
    case Detach => DetachProgram(order, tids);
    case InStopFunctions => InStopProgram(order, tids);
    case RunSyscall(t) => InjectProgram(t, tids);
    case _ =>
      PlainProgram(s, op, order);
      AllPlain(p, tids);
  }

  lemma InjectProgram(t: Tid, tids: set<Tid>)
    requires t in tids
    ensures TodoOk([Send(t, true, true), Settled(t)], tids)
  {
    var p := [Send(t, true, true), Settled(t)];
    assert p[1..] == [Settled(t)] && [Settled(t)][1..] == [];
  }

  lemma PlainProgram(s: Sys, op: Op, order: seq<Tid>)
    requires OpOk(s, op, order) && !op.Detach? && !op.InStopFunctions? && !op.RunSyscall?
    ensures forall c :: c in Program(s, op, order) ==>
              Plain(c) && Fresh(c) && KnownTask(c, s.tasks.Keys) && !DetachPart(c)
  {
  }

  lemma InStopProgram(order: seq<Tid>, tids: set<Tid>)
    requires Ranges(order, tids)
    ensures TodoOk(SendAll(order) + SettleAll(order), tids)
    ensures forall c :: c in SendAll(order) + SettleAll(order) ==> c.Send? || c.Settled?
  {
    AllPlain(SettleAll(order), tids);
    forall t | t in order
      ensures Owed(SettleAll(order), t)
    {
      SettlesAreOwed(order, t);
    }
    SendsBefore(order, SettleAll(order), tids);
  }

  lemma CallKeeps(s: Sys, op: Op, order: seq<Tid>)
    requires Inv(s) && s.todo == [] && OpOk(s, op, order)
    ensures Inv(s.(todo := Program(s, op, order)))
  {
    hide Program, TodoOk, TracerOk, Owed, KnownTask, OpOk, Ranges;
    var p := Program(s, op, order);
    var s' := s.(todo := p);
    ProgramOk(s, op, order);
    assert p != [] ==> p[0] in p;
    forall t | t in s'.tasks
      ensures TracerOk(s', t)
    {
      IdleTracer(s, p, t);
    }
  }

  /** Between operations, no tracer relies on what the goroutine is about to do. */
  lemma IdleTracer(s: Sys, p: seq<Cmd>, t: Tid)
    requires Inv(s) && s.todo == [] && t in s.tasks
    ensures TracerOk(s.(todo := p), t)
  {
    assert TracerOk(s, t);
  }

  // ----- Every step, every run -----

  lemma NextKeeps(s: Sys, a: Action)
    requires Inv(s)
    ensures Inv(Next(s, a))
  {
    hide Inv, OpOk, TakeStep, MeetStep, Program, TracerTurn, HaltTask, Ranges, Takes;
    match a
    case Call(op, order) => if s.todo == [] && OpOk(s, op, order) { CallKeeps(s, op, order); }
    case Control(order, ok) =>
      if s.todo != [] && Ranges(order, s.tasks.Keys) {
        if Takes(s.todo[0]) { TakeStepKeeps(s, order); } else { MeetStepKeeps(s, ok); }
      }
    case Tracer(t, ok) => if t in s.tasks { TracerKeeps(s, t, ok); }
    case Halt(t, status) => if t in s.tasks { HaltKeeps(s, t, status); }
  }

  lemma InitialInv(s: Sys)
    requires IsInitial(s)
    ensures Inv(s)
  {
  }

  lemma {:induction false} RunInv(s: Sys, actions: seq<Action>)
    requires Inv(s)
    ensures Inv(Run(s, actions))
    decreases actions
  {
    hide Inv, Next;
    if actions != [] {
      NextKeeps(s, actions[0]);
      RunInv(Next(s, actions[0]), actions[1..]);
    }
  }
}

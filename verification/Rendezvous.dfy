/**
 controller/ptrace/ptrace.go and the stop and signal operations of controller/controller.go:
 one tracer goroutine for every task of the process, and one controlling goroutine. They meet
 on unbuffered channels, and on SignalStop, a channel of capacity one that doubles as the note
 that a task is stopped.

 A step of a goroutine that would block leaves the state as it is. The kernel may stop a
 running task at any moment, with any status. Ranging over the threads takes them in any order.
 */
module Rendezvous {
  import opened Results

  type Tid = nat
  type Signo = int

  datatype Status = Signal(sig: Signo) | GroupStop | SyscallStop

  /** A running thread was let go with a signal, 0 for none; a stopped one has a wait status. */
  datatype Kernel = Going(injected: Signo) | Halted(status: Status)

  /** Where a tracer is in its loop. */
  datatype Pc =
    | Waiting              // in Wait4
    | Passing              // at a system call, about to let the thread go on
    | Reporting(w: Status) // about to post on SignalStop
    | Ordered              // in the select of awaitContinueOrders
    | Popping(sig: Signo)
    | Resuming(sig: Signo)
    | Acking               // about to send on HasContinued
    | Stepping(reply: bool) // in an order that lets the thread run up to its next stop
    | Served(reply: bool)   // about to answer an order, or to go back to the select
    | Leaving              // about to send on HasDetached
    | Gone

  /** slot is the buffer of SignalStop. The last two fields are read by no goroutine: the status
      that the tracer posted last, and whether an order has let the thread run since. */
  datatype Task = Task(kernel: Kernel, pc: Pc, slot: Option<Status>, reported: Status, stepped: bool)

  /** What the controlling goroutine still has to do in the operation it is in. */
  datatype Cmd =
    | StopTask(t: Tid)     // the select at the start of TraceTask.Stop
    | TakeBack(t: Tid)     // Tgkill was sent: receive
    | PutBack(t: Tid)
    | Resume(t: Tid, sig: Signo)
    | Continued(t: Tid)
    | Await(sig: Signo)
    | Pause(sig: Signo)
    | Judge(sig: Signo)
    | Kill(sig: Signo)
    | Drop(sig: Signo)
    | Send(t: Tid, resumes: bool, reply: bool)
    | Settled(t: Tid)
    | DetachTask(t: Tid)
    | Detached(t: Tid)
    | SetDetached

  /** A status received from SignalStop. */
  datatype Held = Held(t: Tid, status: Status)

  datatype Sys = Sys(tasks: map<Tid, Task>, leader: Tid, todo: seq<Cmd>, hand: Option<Held>, attached: bool)

  datatype Op =
    | Stop
    | ContinueWith(sig: Signo)
    | ContinueTid(t: Tid, sig: Signo)
    | AwaitSignal(sig: Signo)
    | PauseAtSignal(sig: Signo)
    | SendSignal(sig: Signo)
    | SendSignalCont(sig: Signo)
    | RunSyscall(t: Tid)      // also FixupSyscallState: the order lets the thread run and is answered
    | InStopFunctions         // reading or setting the registers of every task
    | Detach

  /** order: in which the threads are ranged over. ok: whether a ptrace call succeeds. */
  datatype Action =
    | Call(op: Op, order: seq<Tid>)
    | Control(order: seq<Tid>, ok: bool)
    | Tracer(t: Tid, ok: bool)
    | Halt(t: Tid, status: Status)

  predicate IsInitial(s: Sys) {
    && s.leader in s.tasks && s.todo == [] && s.hand == None && s.attached
    && forall t :: t in s.tasks ==> s.tasks[t].pc == Waiting && s.tasks[t].slot == None
  }

  // ----- The controlling goroutine -----

  function StopAll(order: seq<Tid>): seq<Cmd> {
    seq(|order|, i requires 0 <= i < |order| => StopTask(order[i]))
  }

  function ResumeAll(order: seq<Tid>, sig: Signo): seq<Cmd> {
    seq(|order|, i requires 0 <= i < |order| => Resume(order[i], sig))
  }

  function SendAll(order: seq<Tid>): seq<Cmd> {
    seq(|order|, i requires 0 <= i < |order| => Send(order[i], false, false))
  }

  function SettleAll(order: seq<Tid>): seq<Cmd> {
    seq(|order|, i requires 0 <= i < |order| => Settled(order[i]))
  }

  function DetachAll(order: seq<Tid>): seq<Cmd> {
    if order == [] then [SetDetached] else [StopTask(order[0]), DetachTask(order[0])] + DetachAll(order[1..])
  }

  const NO_SIGNAL: Signo := -1

  /** AwaitSignal tests before it takes a status, and the status it starts with is no stop. */
  function Program(s: Sys, op: Op, order: seq<Tid>): seq<Cmd> {
    match op
    case Stop => StopAll(order)
    case ContinueWith(sig) => ResumeAll(order, sig)
    case ContinueTid(t, sig) => [Resume(t, sig)]
    case AwaitSignal(sig) => if sig == NO_SIGNAL then [] else [Await(sig)]
    case PauseAtSignal(sig) => [Pause(sig)]
    case SendSignal(sig) => [Kill(sig)]
    case SendSignalCont(sig) => if s.attached then [Kill(sig), Drop(sig)] else [Kill(sig)]
    case RunSyscall(t) => [Send(t, true, true), Settled(t)]
    case InStopFunctions => SendAll(order) + SettleAll(order)
    case Detach => DetachAll(order)
  }

  /** order ranges over the threads, each of them once. */
  predicate Ranges(order: seq<Tid>, tids: set<Tid>) {
    && (forall t :: t in tids ==> t in order) && (forall t :: t in order ==> t in tids)
    && (forall i, j :: 0 <= i < j < |order| ==> order[i] != order[j])
  }

  predicate OpOk(s: Sys, op: Op, order: seq<Tid>) {
    && Ranges(order, s.tasks.Keys)
    && (op.ContinueTid? || op.RunSyscall? ==> op.t in s.tasks)
  }

  /** StopSignal(): -1 unless the status is a stop by a signal. */
  function StopSignal(w: Status): Signo {
    match w
    case Signal(sig) => sig
    case GroupStop => NO_SIGNAL
    case SyscallStop => NO_SIGNAL
  }

  function SetTask(s: Sys, t: Tid, k: Task): Sys {
    s.(tasks := s.tasks[t := k])
  }

  function Pop(s: Sys): Sys
    requires s.todo != []
  {
    s.(todo := s.todo[1..])
  }

  function Become(s: Sys, c: Cmd): Sys
    requires s.todo != []
  {
    s.(todo := [c] + s.todo[1..])
  }

  /** Receives from SignalStop of t, which is not empty. */
  function Take(s: Sys, t: Tid): Sys
    requires t in s.tasks && s.tasks[t].slot.Some?
  {
    SetTask(s, t, s.tasks[t].(slot := None)).(hand := Some(Held(t, s.tasks[t].slot.value)))
  }

  predicate IsFull(s: Sys, t: Tid) {
    t in s.tasks && s.tasks[t].slot.Some?
  }

  predicate IsAt(s: Sys, t: Tid, pc: Pc) {
    t in s.tasks && s.tasks[t].pc == pc
  }

  /** Commands that wait for a status of task t, or look for one. */
  function TakeStep(s: Sys, c: Cmd, order: seq<Tid>): Sys
    requires s.todo != []
  {
    match c
    case StopTask(t) =>
      if IsFull(s, t) then Become(Take(s, t), PutBack(t)) else Become(s, TakeBack(t))
    case TakeBack(t) =>
      if IsFull(s, t) then Become(Take(s, t), PutBack(t)) else s
    case PutBack(t) =>
      if t in s.tasks && !IsFull(s, t) && s.hand.Some? then
        Pop(SetTask(s, t, s.tasks[t].(slot := Some(s.hand.value.status)))).(hand := None)
      else s
    case Await(sig) =>
      if IsFull(s, s.leader) then
        var g := StopSignal(s.tasks[s.leader].slot.value);
        SetTask(s, s.leader, s.tasks[s.leader].(slot := None))
        .(todo := ResumeAll(order, g) + (if g == sig then [] else [Await(sig)]) + s.todo[1..])
      else s
    case Pause(sig) =>
      if IsFull(s, s.leader) then Become(Take(s, s.leader), Judge(sig)) else s
    case Judge(sig) =>
      if s.hand.None? then s
      else if StopSignal(s.hand.value.status) == sig then Become(s, PutBack(s.hand.value.t))
      else s.(hand := None, todo := ResumeAll(order, StopSignal(s.hand.value.status)) + [Pause(sig)] + s.todo[1..])
    case Drop(sig) =>
      if IsFull(s, s.leader) then
        SetTask(s, s.leader, s.tasks[s.leader].(slot := None)).(todo := ResumeAll(order, sig) + s.todo[1..])
      else s
    case _ => s
  }

  /** Commands that meet the tracer of task t. */
  function MeetStep(s: Sys, c: Cmd, ok: bool): Sys
    requires s.todo != []
  {
    match c
    case Resume(t, sig) =>
      if IsAt(s, t, Ordered) then Become(SetTask(s, t, s.tasks[t].(pc := Popping(sig))), Continued(t)) else s
    case Continued(t) =>
      if IsAt(s, t, Acking) then Pop(SetTask(s, t, s.tasks[t].(pc := Waiting))) else s
    case Send(t, resumes, reply) =>
      if !IsAt(s, t, Ordered) then s
      else if resumes then Pop(SetTask(s, t, s.tasks[t].(pc := Stepping(reply), kernel := Going(0), stepped := true)))
      else Pop(SetTask(s, t, s.tasks[t].(pc := Served(reply))))
    case Settled(t) =>
      if IsAt(s, t, Served(true)) then Pop(SetTask(s, t, s.tasks[t].(pc := Ordered)))
      else if t in s.tasks && (s.tasks[t].pc.Stepping? || s.tasks[t].pc.Served?) then s
      else Pop(s)
    case DetachTask(t) =>
      if !IsAt(s, t, Ordered) then s
      else if ok then Become(SetTask(s, t, s.tasks[t].(pc := Leaving, kernel := Going(0))), Detached(t))
      else Become(SetTask(s, t, s.tasks[t].(pc := Gone)), Detached(t))
    case Detached(t) =>
      if IsAt(s, t, Leaving) then Pop(SetTask(s, t, s.tasks[t].(pc := Gone))) else s
    case Kill(_) => Pop(s)
    case SetDetached => Pop(s).(attached := false)
    case _ => s
  }

  predicate Takes(c: Cmd) {
    c.StopTask? || c.TakeBack? || c.PutBack? || c.Await? || c.Pause? || c.Judge? || c.Drop?
  }

  function ControlStep(s: Sys, order: seq<Tid>, ok: bool): Sys {
    if s.todo == [] || !Ranges(order, s.tasks.Keys) then s
    else if Takes(s.todo[0]) then TakeStep(s, s.todo[0], order)
    else MeetStep(s, s.todo[0], ok)
  }

  // ----- The tracers -----

  /** What a tracer does of its own accord. */
  function TracerTurn(k: Task, ok: bool): Task {
    match k.pc
    case Waiting =>
      if k.kernel.Going? then k
      else if k.kernel.status.SyscallStop? then k.(pc := Passing)
      else k.(pc := Reporting(k.kernel.status))
    case Passing => if ok then k.(kernel := Going(0), pc := Waiting) else k.(pc := Gone)
    case Reporting(w) =>
      if k.slot.Some? then k else k.(slot := Some(w), pc := Ordered, reported := w, stepped := false)
    case Popping(sig) => k.(slot := None, pc := Resuming(sig))
    case Resuming(sig) => if ok then k.(kernel := Going(sig), pc := Acking) else k.(pc := Gone)
    case Stepping(reply) => if k.kernel.Going? then k else k.(pc := Served(reply))
    case Served(reply) => if reply then k else k.(pc := Ordered)
    case _ => k
  }

  function HaltTask(k: Task, status: Status): Task {
    if k.kernel.Going? then k.(kernel := Halted(status)) else k
  }

  function Next(s: Sys, a: Action): Sys {
    match a
    case Call(op, order) =>
      if s.todo == [] && OpOk(s, op, order) then s.(todo := Program(s, op, order)) else s
    case Control(order, ok) => ControlStep(s, order, ok)
    case Tracer(t, ok) => if t in s.tasks then SetTask(s, t, TracerTurn(s.tasks[t], ok)) else s
    case Halt(t, status) => if t in s.tasks then SetTask(s, t, HaltTask(s.tasks[t], status)) else s
  }

  function Run(s: Sys, actions: seq<Action>): Sys
    decreases actions
  {
    if actions == [] then s else Run(Next(s, actions[0]), actions[1..])
  }

  // ----- The invariant -----

  predicate Head(todo: seq<Cmd>, c: Cmd) {
    todo != [] && todo[0] == c
  }

  /** The goroutine waits for the order it gave t before it does anything but giving and awaiting
      other orders. */
  predicate Owed(todo: seq<Cmd>, t: Tid) {
    && todo != []
    && (todo[0] == Settled(t) || ((todo[0].Send? || todo[0].Settled?) && Owed(todo[1..], t)))
  }

  /** A command that an operation starts with, as opposed to one it comes by later. */
  predicate Fresh(c: Cmd) {
    !c.TakeBack? && !c.PutBack? && !c.Continued? && !c.Judge? && !c.Detached?
  }

  predicate KnownTask(c: Cmd, tids: set<Tid>) {
    match c
    case StopTask(t) => t in tids
    case TakeBack(t) => t in tids
    case PutBack(t) => t in tids
    case Resume(t, _) => t in tids
    case Continued(t) => t in tids
    case Send(t, _, _) => t in tids
    case Settled(t) => t in tids
    case DetachTask(t) => t in tids
    case Detached(t) => t in tids
    case _ => true
  }

  predicate TodoOk(todo: seq<Cmd>, tids: set<Tid>) {
    todo == [] ||
    (&& KnownTask(todo[0], tids)
     && (todo[0].Send? ==> Owed(todo[1..], todo[0].t))
     && (todo[0].SetDetached? ==> todo[1..] == [])
     && (forall c :: c in todo[1..] ==> Fresh(c))
     && TodoOk(todo[1..], tids))
  }

  predicate DetachPart(c: Cmd) {
    c.DetachTask? || c.Detached? || c.SetDetached?
  }

  /** The operation is Detach. */
  predicate Detaching(todo: seq<Cmd>) {
    SetDetached in todo
  }

  predicate HandOk(s: Sys) {
    && s.leader in s.tasks
    && (s.hand.Some? ==>
          && s.todo != [] && (s.todo[0] == PutBack(s.hand.value.t) || (s.todo[0].Judge? && s.hand.value.t == s.leader))
          && s.hand.value.t in s.tasks && s.tasks[s.hand.value.t].slot == None
          && (s.tasks[s.hand.value.t].pc == Ordered || s.tasks[s.hand.value.t].pc == Gone))
    && (s.todo != [] && (s.todo[0].PutBack? || s.todo[0].Judge?) ==> s.hand.Some?)
  }

  predicate InHand(s: Sys, t: Tid) {
    s.hand.Some? && s.hand.value.t == t
  }

  predicate TracerOk(s: Sys, t: Tid)
    requires t in s.tasks
  {
    var k := s.tasks[t];
    && (match k.pc
        case Waiting => k.slot == None
        case Passing => k.slot == None && k.kernel.Halted?
        case Reporting(w) => k.slot == None && k.kernel == Halted(w)
        case Ordered => k.kernel.Halted? && (!k.stepped ==> k.kernel == Halted(k.reported))
        case Popping(_) => k.kernel.Halted? && Head(s.todo, Continued(t))
        case Resuming(_) => k.slot == None && k.kernel.Halted? && Head(s.todo, Continued(t))
        case Acking => k.slot == None && Head(s.todo, Continued(t))
        case Stepping(_) => k.stepped && Owed(s.todo, t)
        case Served(_) => k.kernel.Halted? && Owed(s.todo, t) && (!k.stepped ==> k.kernel == Halted(k.reported))
        case Leaving => Head(s.todo, Detached(t))
        case Gone => !s.attached || Detaching(s.todo) || (k.slot == None && !InHand(s, t)))
    && (k.slot.Some? ==> k.slot.value == k.reported)
    && (InHand(s, t) ==> s.hand.value.status == k.reported)
  }

  predicate AttachedOk(s: Sys) {
    && (!s.attached ==> forall t :: t in s.tasks ==> s.tasks[t].pc == Gone)
    && ((exists c :: c in s.todo && DetachPart(c)) ==> Detaching(s.todo))
    && (Detaching(s.todo) ==>
          forall t :: t in s.tasks ==> s.tasks[t].pc == Gone || DetachTask(t) in s.todo || Detached(t) in s.todo)
  }

  predicate Inv(s: Sys) {
    && TodoOk(s.todo, s.tasks.Keys)
    && HandOk(s)
    && AttachedOk(s)
    && forall t :: t in s.tasks ==> TracerOk(s, t)
  }
}

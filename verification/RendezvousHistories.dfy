/**
 What the signal operations take and hand on, in the order in which it happens: the statuses
 that the controlling goroutine takes from the leader's channel, the threads that go on and the
 signals they go on with, and the replies that they have.
 */
module RendezvousHistories {
  import opened Results
  import opened Rendezvous
  import opened RendezvousSteps
  import opened RendezvousTheorems

  /** Went: the kernel lets thread t run on with sig. Acked: the goroutine hears of it. Obeyed: the
      tracer takes up another order, for which the thread runs or not. Freed: the kernel lets go of
      the thread for good. */
  datatype Event =
    | Took(status: Status)
    | Went(t: Tid, sig: Signo)
    | Acked(t: Tid)
    | Obeyed(t: Tid, runs: bool)
    | Freed(t: Tid, sig: Signo)

  predicate IsFreed(s: Sys, n: Sys, t: Tid) {
    t in s.tasks && t in n.tasks && s.tasks[t].kernel.Halted? && n.tasks[t].kernel.Going?
  }

  function EventsOf(s: Sys, a: Action): seq<Event> {
    var n := Next(s, a);
    match a
    case Control(_, _) =>
      if IsFull(s, s.leader) && !IsFull(n, s.leader) then [Took(s.tasks[s.leader].slot.value)]
      else if s.todo != [] && s.todo[0].Continued? && IsAt(s, s.todo[0].t, Acking) && !IsAt(n, s.todo[0].t, Acking)
      then [Acked(s.todo[0].t)]
      else if s.todo != [] && s.todo[0].Send? && IsAt(s, s.todo[0].t, Ordered) && !IsAt(n, s.todo[0].t, Ordered)
              && s.todo[0].t in n.tasks
      then [Obeyed(s.todo[0].t, n.tasks[s.todo[0].t].kernel.Going?)]
      else if s.todo != [] && s.todo[0].DetachTask? && IsFreed(s, n, s.todo[0].t)
      then [Freed(s.todo[0].t, n.tasks[s.todo[0].t].kernel.injected)]
      else []
    case Tracer(t, _) =>
      if IsFreed(s, n, t) && n.tasks[t].pc == Acking then [Went(t, n.tasks[t].kernel.injected)]
      else []
    case _ => []
  }

  function History(s: Sys, actions: seq<Action>): seq<Event>
    decreases actions
  {
    if actions == [] then [] else EventsOf(s, actions[0]) + History(Next(s, actions[0]), actions[1..])
  }

  // ----- What should happen -----

  /** One thread after the other goes on with sig and says so. */
  function Trail(order: seq<Tid>, sig: Signo): seq<Event> {
    if order == [] then [] else Trail(order[..|order| - 1], sig) + Passed(order[|order| - 1], sig)
  }

  function Passed(t: Tid, sig: Signo): seq<Event> {
    [Went(t, sig), Acked(t)]
  }

  /** A status is taken, and every thread goes on with its signal. */
  datatype Round = Round(status: Status, order: seq<Tid>)

  function RoundEvents(r: Round): seq<Event> {
    [Took(r.status)] + Trail(r.order, StopSignal(r.status))
  }

  function AllEvents(rs: seq<Round>): seq<Event> {
    if rs == [] then [] else AllEvents(rs[..|rs| - 1]) + RoundEvents(rs[|rs| - 1])
  }

  function Front(rs: seq<Round>): seq<Round>
    requires rs != []
  {
    rs[..|rs| - 1]
  }

  function Last(rs: seq<Round>): Round
    requires rs != []
  {
    rs[|rs| - 1]
  }

  /** h consists of these rounds, of which the last has begun but may not be over. */
  predicate InRounds(h: seq<Event>, rs: seq<Round>, tids: set<Tid>) {
    && (forall i :: 0 <= i < |rs| ==> Ranges(rs[i].order, tids))
    && h <= AllEvents(rs)
    && (rs != [] ==> |h| > |AllEvents(Front(rs))|)
  }

  /** No round but the last is one of a stop by sig. */
  predicate OnlyLast(rs: seq<Round>, sig: Signo) {
    forall i :: 0 <= i < |rs| - 1 ==> StopSignal(rs[i].status) != sig
  }

  predicate Caught(rs: seq<Round>, sig: Signo) {
    rs != [] && StopSignal(Last(rs).status) == sig
  }

  // ----- Telling the threads to go on -----

  /** In the middle of ContinueWith(g): the threads order[..k] have gone on since base, and tail
      is what follows. */
  predicate Due(s: Sys, h: seq<Event>, base: seq<Event>, order: seq<Tid>, k: nat, g: Signo, tail: seq<Cmd>) {
    k <= |order| && s.todo == ResumeAll(order[k..], g) + tail && h == base + Trail(order[..k], g)
  }

  /** The same, while thread order[k] is being told. */
  predicate Told(s: Sys, h: seq<Event>, base: seq<Event>, order: seq<Tid>, k: nat, g: Signo, tail: seq<Cmd>) {
    && k < |order| && s.todo == [Continued(order[k])] + ResumeAll(order[k + 1..], g) + tail
    && (|| (h == base + Trail(order[..k], g) && IsLettingGo(s, order[k], g))
        || (h == base + Trail(order[..k], g) + [Went(order[k], g)] && IsAt(s, order[k], Acking)))
  }

  /** The tracer is about to let the thread go on with g, or could not. */
  predicate IsLettingGo(s: Sys, t: Tid, g: Signo) {
    IsAt(s, t, Popping(g)) || IsAt(s, t, Resuming(g)) || IsAt(s, t, Gone)
  }

  lemma ResumeAllParts(order: seq<Tid>, k: nat, g: Signo)
    requires k < |order|
    ensures ResumeAll(order[k..], g) == [Resume(order[k], g)] + ResumeAll(order[k + 1..], g)
  {
  }

  lemma TrailParts(order: seq<Tid>, k: nat, g: Signo)
    requires k < |order|
    ensures Trail(order[..k + 1], g) == Trail(order[..k], g) + [Went(order[k], g)] + [Acked(order[k])]
  {
    assert order[..k + 1][..k] == order[..k];
    assert Passed(order[k], g) == [Went(order[k], g)] + [Acked(order[k])];
  }

  lemma QuietTracer(s: Sys, u: Tid, ok: bool)
    requires Inv(s) && !Head(s.todo, Continued(u))
    ensures EventsOf(s, Tracer(u, ok)) == []
  {
    if u in s.tasks {
      assert TracerOk(s, u);
    }
  }

  lemma OtherTracer(s: Sys, u: Tid, ok: bool, t: Tid)
    requires u != t
    ensures var n := Next(s, Tracer(u, ok));
            n.todo == s.todo && (t in s.tasks <==> t in n.tasks) && (t in s.tasks ==> n.tasks[t] == s.tasks[t])
  {
    hide TracerTurn;
  }

  lemma HaltsQuietly(s: Sys, u: Tid, w: Status)
    ensures EventsOf(s, Halt(u, w)) == []
    ensures var n := Next(s, Halt(u, w));
            n.todo == s.todo && n.hand == s.hand && forall t, pc :: IsAt(n, t, pc) <==> IsAt(s, t, pc)
  {
  }

  lemma Tells(s: Sys, t: Tid, g: Signo, order: seq<Tid>, ok: bool)
    requires Head(s.todo, Resume(t, g))
    ensures var n := Next(s, Control(order, ok));
            && EventsOf(s, Control(order, ok)) == []
            && (n == s || (n.todo == [Continued(t)] + s.todo[1..] && IsAt(n, t, Popping(g))))
  {
    hide Ranges;
  }

  lemma DueNext(s: Sys, a: Action, h: seq<Event>, base: seq<Event>, order: seq<Tid>, k: nat, g: Signo, tail: seq<Cmd>)
    requires Inv(s) && Due(s, h, base, order, k, g, tail) && k < |order| && !a.Call?
    ensures var n, h' := Next(s, a), h + EventsOf(s, a);
            Due(n, h', base, order, k, g, tail) || Told(n, h', base, order, k, g, tail)
  {
    hide Inv, Next, EventsOf, ResumeAll, Trail;
    var t := order[k];
    ResumeAllParts(order, k, g);
    assert s.todo[1..] == ResumeAll(order[k + 1..], g) + tail;
    assert h + [] == h;
    match a
    case Control(other, ok) => Tells(s, t, g, other, ok);
    case Tracer(u, ok) =>
      QuietTracer(s, u, ok);
      TracerLeavesTodo(s, u, ok);
    case Halt(u, w) => HaltsQuietly(s, u, w);
  }

  lemma TracerLeavesTodo(s: Sys, u: Tid, ok: bool)
    ensures var n := Next(s, Tracer(u, ok));
            n.todo == s.todo && n.hand == s.hand && n.leader == s.leader
  {
    hide TracerTurn;
  }

  lemma Hears(s: Sys, t: Tid, order: seq<Tid>, ok: bool)
    requires Head(s.todo, Continued(t))
    ensures var n := Next(s, Control(order, ok));
            || (n == s && EventsOf(s, Control(order, ok)) == [])
            || (IsAt(s, t, Acking) && n.todo == s.todo[1..] && EventsOf(s, Control(order, ok)) == [Acked(t)])
  {
    hide Ranges;
  }

  lemma LetsGo(s: Sys, t: Tid, g: Signo, ok: bool)
    requires Inv(s) && Head(s.todo, Continued(t)) && IsLettingGo(s, t, g)
    ensures var n := Next(s, Tracer(t, ok));
            || (IsLettingGo(n, t, g) && EventsOf(s, Tracer(t, ok)) == [])
            || (IsAt(n, t, Acking) && EventsOf(s, Tracer(t, ok)) == [Went(t, g)])
  {
    assert TracerOk(s, t);
  }

  lemma WaitsForAck(s: Sys, t: Tid, ok: bool)
    requires IsAt(s, t, Acking)
    ensures IsAt(Next(s, Tracer(t, ok)), t, Acking) && Next(s, Tracer(t, ok)) == s && EventsOf(s, Tracer(t, ok)) == []
  {
    assert s.tasks[t := s.tasks[t]] == s.tasks;
  }

  lemma ToldNext(s: Sys, a: Action, h: seq<Event>, base: seq<Event>, order: seq<Tid>, k: nat, g: Signo, tail: seq<Cmd>)
    requires Inv(s) && Told(s, h, base, order, k, g, tail) && !a.Call?
    ensures var n, h' := Next(s, a), h + EventsOf(s, a);
            Told(n, h', base, order, k, g, tail) || Due(n, h', base, order, k + 1, g, tail)
  {
    hide Inv, Next, EventsOf, ResumeAll, Trail;
    var t := order[k];
    TrailParts(order, k, g);
    assert s.todo[1..] == ResumeAll(order[k + 1..], g) + tail;
    assert h + [] == h;
    match a
    case Control(other, ok) =>
      Hears(s, t, other, ok);
      assert base + Trail(order[..k], g) + [Went(t, g)] + [Acked(t)]
          == base + (Trail(order[..k], g) + [Went(t, g)] + [Acked(t)]);
      NotBoth(s, t, g);
    case Tracer(u, ok) =>
      TracerLeavesTodo(s, u, ok);
      if u != t {
        QuietTracer(s, u, ok);
        OtherTracer(s, u, ok, t);
      } else if IsAt(s, t, Acking) {
        WaitsForAck(s, t, ok);
      } else {
        LetsGo(s, t, g, ok);
      }
    case Halt(u, w) => HaltsQuietly(s, u, w);
  }

  lemma NotBoth(s: Sys, t: Tid, g: Signo)
    ensures !(IsAt(s, t, Acking) && IsLettingGo(s, t, g))
  {
  }

  /** What a run leaves in which the operation is called. */
  lemma Reached(s: Sys, before: seq<Action>)
    requires IsInitial(s)
    ensures Inv(Run(s, before)) && Run(s, before).tasks.Keys == s.tasks.Keys
  {
    InitialInv(s);
    RunInv(s, before);
    TasksStay(s, before);
  }

  ghost predicate GoingOn(s: Sys, h: seq<Event>, base: seq<Event>, order: seq<Tid>, g: Signo, tail: seq<Cmd>) {
    exists k: nat :: Due(s, h, base, order, k, g, tail) || Told(s, h, base, order, k, g, tail)
  }

  predicate AllHaveGone(s: Sys, h: seq<Event>, base: seq<Event>, order: seq<Tid>, g: Signo, tail: seq<Cmd>) {
    s.todo == tail && h == base + Trail(order, g)
  }

  lemma DueAtTheEnd(s: Sys, h: seq<Event>, base: seq<Event>, order: seq<Tid>, g: Signo, tail: seq<Cmd>)
    ensures Due(s, h, base, order, |order|, g, tail) <==> AllHaveGone(s, h, base, order, g, tail)
  {
    assert order[..|order|] == order && order[|order|..] == [];
    assert ResumeAll([], g) + tail == tail;
  }

  lemma {:induction false} TrailLength(order: seq<Tid>, g: Signo)
    ensures |Trail(order, g)| == 2 * |order|
    decreases |order|
  {
    if order != [] {
      TrailLength(order[..|order| - 1], g);
    }
  }

  lemma {:induction false} TrailGrows(order: seq<Tid>, k: nat, g: Signo)
    requires k <= |order|
    ensures Trail(order[..k], g) <= Trail(order, g)
    ensures k < |order| ==> Trail(order[..k], g) + [Went(order[k], g)] <= Trail(order, g)
    decreases |order| - k
  {
    if k == |order| {
      assert order[..k] == order;
    } else {
      TrailGrows(order, k + 1, g);
      TrailParts(order, k, g);
    }
  }

  /** What has happened so far is the beginning of what should happen, and the whole of it exactly
      when the goroutine goes on to what follows. */
  lemma GoingOnIsPrefix(s: Sys, h: seq<Event>, base: seq<Event>, order: seq<Tid>, g: Signo, tail: seq<Cmd>)
    requires GoingOn(s, h, base, order, g, tail)
    ensures base <= h <= base + Trail(order, g)
    ensures h == base + Trail(order, g) <==> s.todo == tail
    ensures s.todo != tail ==> |s.todo| > |tail|
  {
    var k: nat :| Due(s, h, base, order, k, g, tail) || Told(s, h, base, order, k, g, tail);
    TrailGrows(order, k, g);
    TrailLength(order, g);
    TrailLength(order[..k], g);
    hide Trail;
    assert order[..|order|] == order;
  }

  lemma Idles(s: Sys, a: Action)
    requires Inv(s) && s.todo == [] && !a.Call?
    ensures Next(s, a).todo == [] && EventsOf(s, a) == []
  {
    hide TracerTurn, HaltTask, Inv;
    if a.Tracer? {
      QuietTracer(s, a.t, a.ok);
    }
  }

  lemma GoingOnNext(s: Sys, a: Action, h: seq<Event>, base: seq<Event>, order: seq<Tid>, g: Signo, tail: seq<Cmd>)
    requires Inv(s) && GoingOn(s, h, base, order, g, tail) && !a.Call?
    requires s.todo == tail ==> tail == []
    ensures GoingOn(Next(s, a), h + EventsOf(s, a), base, order, g, tail)
  {
    hide Inv, Next, EventsOf, Due, Told, Trail;
    GoingOnIsPrefix(s, h, base, order, g, tail);
    var k: nat :| Due(s, h, base, order, k, g, tail) || Told(s, h, base, order, k, g, tail);
    if s.todo == tail {
      Idles(s, a);
      assert h + [] == h;
      DueAtTheEnd(Next(s, a), h, base, order, g, tail);
    } else if Told(s, h, base, order, k, g, tail) {
      ToldNext(s, a, h, base, order, k, g, tail);
    } else {
      NotAtTheEnd(s, h, base, order, k, g, tail);
      DueNext(s, a, h, base, order, k, g, tail);
    }
  }

  lemma NotAtTheEnd(s: Sys, h: seq<Event>, base: seq<Event>, order: seq<Tid>, k: nat, g: Signo, tail: seq<Cmd>)
    requires Due(s, h, base, order, k, g, tail) && s.todo != tail
    ensures k < |order|
  {
    assert ResumeAll([], g) + tail == tail;
  }

  lemma GoingOnBegins(s: Sys, h: seq<Event>, order: seq<Tid>, g: Signo, tail: seq<Cmd>)
    requires s.todo == ResumeAll(order, g) + tail
    ensures GoingOn(s, h, h, order, g, tail)
  {
    assert order[0..] == order && order[..0] == [] && h + [] == h;
    assert Due(s, h, h, order, 0, g, tail);
  }

  // ----- ContinueWith and ContinueTid -----

  lemma {:induction false} GoingOnRun(s: Sys, actions: seq<Action>, h: seq<Event>, base: seq<Event>, order: seq<Tid>,
      g: Signo)
    requires Inv(s) && GoingOn(s, h, base, order, g, []) && NoCalls(actions)
    ensures GoingOn(Run(s, actions), h + History(s, actions), base, order, g, [])
    decreases actions
  {
    hide Inv, Next, GoingOn, EventsOf;
    if actions == [] {
      assert h + [] == h;
    } else {
      var a := actions[0];
      NextKeeps(s, a);
      GoingOnNext(s, a, h, base, order, g, []);
      GoingOnRun(Next(s, a), actions[1..], h + EventsOf(s, a), base, order, g);
      assert h + EventsOf(s, a) + History(Next(s, a), actions[1..]) == h + History(s, actions);
    }
  }

  /** The threads that op tells to go on. */
  predicate TellsToGoOn(op: Op, order: seq<Tid>, told: seq<Tid>, sig: Signo) {
    (op == ContinueWith(sig) && told == order) || (op.ContinueTid? && op.sig == sig && told == [op.t])
  }

  /** The operation has been called. */
  lemma Called(m: Sys, op: Op, order: seq<Tid>)
    requires Inv(m) && m.todo == [] && OpOk(m, op, order)
    ensures Next(m, Call(op, order)) == m.(todo := Program(m, op, order)) && Inv(Next(m, Call(op, order)))
  {
    hide Inv, Program, OpOk;
    NextKeeps(m, Call(op, order));
  }

  lemma ContinueProgram(m: Sys, op: Op, order: seq<Tid>, told: seq<Tid>, sig: Signo)
    requires TellsToGoOn(op, order, told, sig)
    ensures Program(m, op, order) == ResumeAll(told, sig) + []
  {
  }

  lemma ContinueFrom(m: Sys, op: Op, order: seq<Tid>, told: seq<Tid>, sig: Signo, later: seq<Action>)
    requires Inv(m) && m.todo == [] && OpOk(m, op, order) && NoCalls(later) && TellsToGoOn(op, order, told, sig)
    ensures var n := Next(m, Call(op, order));
            var h := History(n, later);
            h <= Trail(told, sig) && (Run(n, later).todo == [] <==> h == Trail(told, sig))
  {
    hide *;
    Called(m, op, order);
    ContinueProgram(m, op, order, told, sig);
    var n := Next(m, Call(op, order));
    GoingOnBegins(n, [], told, sig, []);
    GoingOnRun(n, later, [], [], told, sig);
    GoingOnIsPrefix(Run(n, later), [] + History(n, later), [], told, sig, []);
    assert [] + History(n, later) == History(n, later) && [] + Trail(told, sig) == Trail(told, sig);
  }

  /** ContinueWith lets one thread after the other go on, with the signal it was given; it returns
      exactly when all of them have. ContinueTid does so with one thread. */
  lemma ContinuePassesTheSignal(s: Sys, before: seq<Action>, op: Op, order: seq<Tid>, told: seq<Tid>, sig: Signo,
      later: seq<Action>)
    requires IsInitial(s) && NoCalls(later) && TellsToGoOn(op, order, told, sig)
    requires Run(s, before).todo == [] && OpOk(Run(s, before), op, order)
    ensures var n := Next(Run(s, before), Call(op, order));
            var h := History(n, later);
            h <= Trail(told, sig) && (Run(n, later).todo == [] <==> h == Trail(told, sig))
  {
    hide *;
    Reached(s, before);
    ContinueFrom(Run(s, before), op, order, told, sig, later);
  }

  // ----- AwaitSignal -----

  predicate OrdersOk(rs: seq<Round>, tids: set<Tid>) {
    forall i :: 0 <= i < |rs| ==> Ranges(rs[i].order, tids)
  }

  predicate NoneCaught(rs: seq<Round>, sig: Signo) {
    forall i :: 0 <= i < |rs| ==> StopSignal(rs[i].status) != sig
  }

  /** Up to where the threads are told to go on. */
  function Base(rs: seq<Round>): seq<Event>
    requires rs != []
  {
    AllEvents(Front(rs)) + [Took(Last(rs).status)]
  }

  /** The threads are told to go on in the last of these rounds. */
  ghost predicate InLast(s: Sys, h: seq<Event>, rs: seq<Round>, tail: seq<Cmd>) {
    rs != [] && GoingOn(s, h, Base(rs), Last(rs).order, StopSignal(Last(rs).status), tail)
  }

  ghost predicate Awaiting(s: Sys, h: seq<Event>, rs: seq<Round>, sig: Signo) {
    && OrdersOk(rs, s.tasks.Keys)
    && (|| (s.todo == [Await(sig)] && h == AllEvents(rs) && NoneCaught(rs, sig))
        || (OnlyLast(rs, sig) && InLast(s, h, rs, if Caught(rs, sig) then [] else [Await(sig)])))
  }

  lemma OneMoreRound(rs: seq<Round>, r: Round)
    ensures Front(rs + [r]) == rs && Last(rs + [r]) == r && Base(rs + [r]) == AllEvents(rs) + [Took(r.status)]
  {
  }

  lemma RoundIsOver(rs: seq<Round>)
    requires rs != []
    ensures AllEvents(rs) == Base(rs) + Trail(Last(rs).order, StopSignal(Last(rs).status))
  {
  }

  lemma AwaitTakes(s: Sys, sig: Signo, order: seq<Tid>, ok: bool)
    requires Inv(s) && s.todo == [Await(sig)]
    ensures var n := Next(s, Control(order, ok));
            || (n == s && EventsOf(s, Control(order, ok)) == [])
            || exists w ::
                 && Ranges(order, s.tasks.Keys) && EventsOf(s, Control(order, ok)) == [Took(w)]
                 && n.todo == ResumeAll(order, StopSignal(w)) + if StopSignal(w) == sig then [] else [Await(sig)]
  {
    hide Owed, TodoOk, ResumeAll;
    assert s.todo[1..] == [];
    if IsFull(s, s.leader) && Ranges(order, s.tasks.Keys) {
      var w := s.tasks[s.leader].slot.value;
      var n := Next(s, Control(order, ok));
      var more := if StopSignal(w) == sig then [] else [Await(sig)];
      assert n.todo == ResumeAll(order, StopSignal(w)) + more + [];
      assert ResumeAll(order, StopSignal(w)) + more + [] == ResumeAll(order, StopSignal(w)) + more;
      assert EventsOf(s, Control(order, ok)) == [Took(w)];
    }
  }

  /** Nothing happens to an operation that waits for a status while others move. */
  lemma WaitsForStatus(s: Sys, a: Action)
    requires Inv(s) && (forall t :: !Head(s.todo, Continued(t))) && !a.Call? && !a.Control?
    ensures Next(s, a).todo == s.todo && Next(s, a).hand == s.hand && EventsOf(s, a) == []
  {
    hide Inv, Next, EventsOf;
    match a
    case Tracer(u, ok) =>
      QuietTracer(s, u, ok);
      TracerLeavesTodo(s, u, ok);
    case Halt(u, w) => HaltsQuietly(s, u, w);
  }

  /** A round begins with a status w and this order. */
  lemma RoundBegins(n: Sys, h: seq<Event>, rs: seq<Round>, w: Status, order: seq<Tid>, tail: seq<Cmd>)
    requires h == AllEvents(rs) && n.todo == ResumeAll(order, StopSignal(w)) + tail
    ensures InLast(n, h + [Took(w)], rs + [Round(w, order)], tail)
  {
    OneMoreRound(rs, Round(w, order));
    GoingOnBegins(n, h + [Took(w)], order, StopSignal(w), tail);
  }

  /** A round that has just begun keeps the invariant. */
  lemma AwaitingBegins(s: Sys, n: Sys, h: seq<Event>, rs: seq<Round>, sig: Signo, w: Status, order: seq<Tid>)
    requires OrdersOk(rs, s.tasks.Keys) && h == AllEvents(rs) && NoneCaught(rs, sig)
    requires n.tasks.Keys == s.tasks.Keys && Ranges(order, s.tasks.Keys)
    requires n.todo == ResumeAll(order, StopSignal(w)) + if StopSignal(w) == sig then [] else [Await(sig)]
    ensures Awaiting(n, h + [Took(w)], rs + [Round(w, order)], sig)
  {
    hide GoingOn, AllEvents, Ranges, Base, ResumeAll;
    OneMoreRound(rs, Round(w, order));
    RoundBegins(n, h, rs, w, order, if StopSignal(w) == sig then [] else [Await(sig)]);
  }

  lemma AwaitingNext(s: Sys, a: Action, h: seq<Event>, rs: seq<Round>, sig: Signo) returns (rs': seq<Round>)
    requires Inv(s) && Awaiting(s, h, rs, sig) && !a.Call?
    ensures Awaiting(Next(s, a), h + EventsOf(s, a), rs', sig)
  {
    rs' := rs;
    NextKeepsTasks(s, a);
    hide Inv, Next, EventsOf, GoingOn, AllEvents, Ranges, Base, InLast, ResumeAll, OnlyLast;
    assert h + [] == h;
    if s.todo == [Await(sig)] && h == AllEvents(rs) && NoneCaught(rs, sig) {
      if a.Control? {
        AwaitTakes(s, sig, a.order, a.ok);
        if EventsOf(s, a) != [] {
          var w :| EventsOf(s, a) == [Took(w)]
            && Next(s, a).todo == ResumeAll(a.order, StopSignal(w)) + if StopSignal(w) == sig then [] else [Await(sig)];
          rs' := rs + [Round(w, a.order)];
          AwaitingBegins(s, Next(s, a), h, rs, sig, w, a.order);
        }
      } else {
        WaitsForStatus(s, a);
      }
    } else {
      AwaitingGoesOn(s, a, h, rs, sig);
    }
  }

  lemma AwaitingGoesOn(s: Sys, a: Action, h: seq<Event>, rs: seq<Round>, sig: Signo)
    requires Inv(s) && Awaiting(s, h, rs, sig) && !a.Call?
    requires !(s.todo == [Await(sig)] && h == AllEvents(rs) && NoneCaught(rs, sig))
    ensures Awaiting(Next(s, a), h + EventsOf(s, a), rs, sig)
  {
    NextKeepsTasks(s, a);
    hide Inv, Next, EventsOf, GoingOn, AllEvents, Ranges, Base;
    var base, r := Base(rs), Last(rs);
    var tail := if Caught(rs, sig) then [] else [Await(sig)];
    GoingOnIsPrefix(s, h, base, r.order, StopSignal(r.status), tail);
    RoundIsOver(rs);
    GoingOnNext(s, a, h, base, r.order, StopSignal(r.status), tail);
  }

  lemma {:induction false} AwaitingRun(s: Sys, actions: seq<Action>, h: seq<Event>, rs: seq<Round>, sig: Signo)
    returns (rs': seq<Round>)
    requires Inv(s) && Awaiting(s, h, rs, sig) && NoCalls(actions)
    ensures Awaiting(Run(s, actions), h + History(s, actions), rs', sig)
    decreases actions
  {
    hide Inv, Next, Awaiting, EventsOf;
    if actions == [] {
      rs' := rs;
      assert h + [] == h;
    } else {
      var a := actions[0];
      NextKeeps(s, a);
      rs' := AwaitingNext(s, a, h, rs, sig);
      rs' := AwaitingRun(Next(s, a), actions[1..], h + EventsOf(s, a), rs', sig);
      assert h + EventsOf(s, a) + History(Next(s, a), actions[1..]) == h + History(s, actions);
    }
  }

  lemma AwaitingMeans(e: Sys, h: seq<Event>, rs: seq<Round>, sig: Signo)
    requires Awaiting(e, h, rs, sig)
    ensures InRounds(h, rs, e.tasks.Keys) && OnlyLast(rs, sig)
    ensures e.todo == [] <==> Caught(rs, sig) && h == AllEvents(rs)
  {
    if rs != [] {
      var r := Last(rs);
      RoundIsOver(rs);
      if InLast(e, h, rs, if Caught(rs, sig) then [] else [Await(sig)]) {
        GoingOnIsPrefix(e, h, Base(rs), r.order, StopSignal(r.status), if Caught(rs, sig) then [] else [Await(sig)]);
      }
    }
    hide GoingOn, Ranges, Trail;
  }

  lemma {:induction false} IdleRun(s: Sys, actions: seq<Action>)
    requires Inv(s) && s.todo == [] && NoCalls(actions)
    ensures Run(s, actions).todo == [] && History(s, actions) == []
    decreases actions
  {
    hide Inv, Next, EventsOf;
    if actions != [] {
      NextKeeps(s, actions[0]);
      Idles(s, actions[0]);
      IdleRun(Next(s, actions[0]), actions[1..]);
    }
  }

  /** The rounds of an operation that looks for sig, and whether it is over. */
  ghost predicate GoesInRounds(h: seq<Event>, rs: seq<Round>, tids: set<Tid>, sig: Signo) {
    InRounds(h, rs, tids) && OnlyLast(rs, sig)
  }

  lemma AwaitFrom(m: Sys, sig: Signo, order: seq<Tid>, later: seq<Action>) returns (rs: seq<Round>)
    requires Inv(m) && m.todo == [] && Ranges(order, m.tasks.Keys) && NoCalls(later)
    ensures var n := Next(m, Call(AwaitSignal(sig), order));
            var e, h := Run(n, later), History(n, later);
            && GoesInRounds(h, rs, m.tasks.Keys, sig)
            && (e.todo == [] <==> sig == NO_SIGNAL || (Caught(rs, sig) && h == AllEvents(rs)))
  {
    var n := Next(m, Call(AwaitSignal(sig), order));
    NextKeeps(m, Call(AwaitSignal(sig), order));
    TasksStay(n, later);
    hide Inv, Run, Next, History;
    if sig == NO_SIGNAL {
      IdleRun(n, later);
      rs := [];
    } else {
      assert Awaiting(n, [], [], sig);
      rs := AwaitingRun(n, later, [], [], sig);
      assert [] + History(n, later) == History(n, later);
      hide Awaiting, InRounds, OnlyLast, Caught, AllEvents;
      AwaitingMeans(Run(n, later), History(n, later), rs, sig);
    }
  }

  /** AwaitSignal goes in rounds: it takes a status of the leader and lets every thread go on with
      the signal of that status. Only the last round can be that of the awaited signal, and
      AwaitSignal returns exactly when that round is over; at once, if what is awaited is not a
      signal at all. */
  lemma AwaitSignalAwaitsIt(s: Sys, before: seq<Action>, sig: Signo, order: seq<Tid>, later: seq<Action>)
    requires IsInitial(s) && NoCalls(later)
    requires Run(s, before).todo == [] && Ranges(order, s.tasks.Keys)
    ensures var n := Next(Run(s, before), Call(AwaitSignal(sig), order));
            var e, h := Run(n, later), History(n, later);
            exists rs: seq<Round> ::
              && GoesInRounds(h, rs, s.tasks.Keys, sig)
              && (e.todo == [] <==> sig == NO_SIGNAL || (Caught(rs, sig) && h == AllEvents(rs)))
  {
    hide *;
    Reached(s, before);
    var rs := AwaitFrom(Run(s, before), sig, order, later);
  }

  // ----- SendSignalCont -----

  ghost predicate Dropping(s: Sys, h: seq<Event>, r: Round, sig: Signo) {
    || (h == [] && (s.todo == [Kill(sig), Drop(sig)] || s.todo == [Drop(sig)]))
    || (Ranges(r.order, s.tasks.Keys) && GoingOn(s, h, [Took(r.status)], r.order, sig, []))
  }

  lemma KillsAndDrops(s: Sys, sig: Signo, order: seq<Tid>, ok: bool)
    requires Inv(s) && (s.todo == [Kill(sig), Drop(sig)] || s.todo == [Drop(sig)])
    ensures var n := Next(s, Control(order, ok));
            || (EventsOf(s, Control(order, ok)) == [] && (n.todo == s.todo || n.todo == [Drop(sig)]))
            || exists w ::
                 && Ranges(order, s.tasks.Keys) && EventsOf(s, Control(order, ok)) == [Took(w)]
                 && n.todo == ResumeAll(order, sig) + []
  {
    hide Owed, TodoOk, ResumeAll;
    assert [Drop(sig)][1..] == [] && [Kill(sig), Drop(sig)][1..] == [Drop(sig)];
    if s.todo == [Drop(sig)] && IsFull(s, s.leader) && Ranges(order, s.tasks.Keys) {
      assert EventsOf(s, Control(order, ok)) == [Took(s.tasks[s.leader].slot.value)];
    }
  }

  lemma DroppingNext(s: Sys, a: Action, h: seq<Event>, r: Round, sig: Signo) returns (r': Round)
    requires Inv(s) && Dropping(s, h, r, sig) && !a.Call?
    ensures Dropping(Next(s, a), h + EventsOf(s, a), r', sig)
  {
    r' := r;
    NextKeepsTasks(s, a);
    hide Inv, Next, EventsOf, GoingOn, Ranges, ResumeAll;
    assert h + [] == h;
    if h == [] && (s.todo == [Kill(sig), Drop(sig)] || s.todo == [Drop(sig)]) {
      if a.Control? {
        KillsAndDrops(s, sig, a.order, a.ok);
        if EventsOf(s, a) != [] {
          var w :| EventsOf(s, a) == [Took(w)] && Next(s, a).todo == ResumeAll(a.order, sig) + [];
          r' := Round(w, a.order);
          GoingOnBegins(Next(s, a), [Took(w)], a.order, sig, []);
          assert [] + [Took(w)] == [Took(w)];
        }
      } else {
        WaitsForStatus(s, a);
      }
    } else {
      GoingOnNext(s, a, h, [Took(r.status)], r.order, sig, []);
    }
  }

  lemma {:induction false} DroppingRun(s: Sys, actions: seq<Action>, h: seq<Event>, r: Round, sig: Signo)
    returns (r': Round)
    requires Inv(s) && Dropping(s, h, r, sig) && NoCalls(actions)
    ensures Dropping(Run(s, actions), h + History(s, actions), r', sig)
    decreases actions
  {
    hide Inv, Next, Dropping, EventsOf;
    if actions == [] {
      r' := r;
      assert h + [] == h;
    } else {
      var a := actions[0];
      NextKeeps(s, a);
      r' := DroppingNext(s, a, h, r, sig);
      r' := DroppingRun(Next(s, a), actions[1..], h + EventsOf(s, a), r', sig);
      assert h + EventsOf(s, a) + History(Next(s, a), actions[1..]) == h + History(s, actions);
    }
  }

  /** Whatever status is taken, every thread goes on with sig. */
  function Dropped(r: Round, sig: Signo): seq<Event> {
    [Took(r.status)] + Trail(r.order, sig)
  }

  lemma DroppingMeans(e: Sys, h: seq<Event>, r: Round, sig: Signo, r0: Round) returns (r': Round)
    requires Dropping(e, h, r, sig) && Ranges(r0.order, e.tasks.Keys)
    ensures Ranges(r'.order, e.tasks.Keys) && h <= Dropped(r', sig) && (e.todo == [] <==> h == Dropped(r', sig))
  {
    hide Ranges, Trail, GoingOn;
    if Ranges(r.order, e.tasks.Keys) && GoingOn(e, h, [Took(r.status)], r.order, sig, []) {
      r' := r;
      GoingOnIsPrefix(e, h, [Took(r.status)], r.order, sig, []);
    } else {
      r' := r0;
    }
  }

  lemma SendSignalContFrom(m: Sys, sig: Signo, order: seq<Tid>, later: seq<Action>) returns (r: Round)
    requires Inv(m) && m.todo == [] && m.attached && Ranges(order, m.tasks.Keys) && NoCalls(later)
    ensures var n := Next(m, Call(SendSignalCont(sig), order));
            var e, h := Run(n, later), History(n, later);
            Ranges(r.order, m.tasks.Keys) && h <= Dropped(r, sig) && (e.todo == [] <==> h == Dropped(r, sig))
  {
    var n := Next(m, Call(SendSignalCont(sig), order));
    NextKeeps(m, Call(SendSignalCont(sig), order));
    TasksStay(n, later);
    hide Inv, Run, Next, History, Ranges, GoingOn, Dropped;
    r := Round(GroupStop, order);
    assert Dropping(n, [], r, sig);
    r := DroppingRun(n, later, [], r, sig);
    assert [] + History(n, later) == History(n, later);
    hide Dropping;
    r := DroppingMeans(Run(n, later), History(n, later), r, sig, Round(GroupStop, order));
  }

  /** SendSignalCont takes one status, whatever it is, and lets every thread go on with the signal
      that was sent; it returns exactly when all of them have. */
  lemma SendSignalContPassesTheSignal(s: Sys, before: seq<Action>, sig: Signo, order: seq<Tid>, later: seq<Action>)
    requires IsInitial(s) && NoCalls(later)
    requires Run(s, before).todo == [] && Run(s, before).attached && Ranges(order, s.tasks.Keys)
    ensures var n := Next(Run(s, before), Call(SendSignalCont(sig), order));
            var e, h := Run(n, later), History(n, later);
            exists r: Round ::
              Ranges(r.order, s.tasks.Keys) && h <= Dropped(r, sig) && (e.todo == [] <==> h == Dropped(r, sig))
  {
    hide *;
    Reached(s, before);
    var r := SendSignalContFrom(Run(s, before), sig, order, later);
  }

  // ----- PauseAtSignal -----

  /** A round of which only the status has been taken. */
  predicate JustBegun(h: seq<Event>, rs: seq<Round>) {
    rs != [] && h == Base(rs)
  }

  ghost predicate PausingAt(s: Sys, h: seq<Event>, rs: seq<Round>, sig: Signo) {
    && OrdersOk(rs, s.tasks.Keys)
    && (|| (s.todo == [Pause(sig)] && h == AllEvents(rs) && NoneCaught(rs, sig))
        || (OnlyLast(rs, sig) && JustBegun(h, rs) && s.todo == [Judge(sig)] && s.hand.Some?
            && s.hand.value.status == Last(rs).status)
        || (NoneCaught(rs, sig) && InLast(s, h, rs, [Pause(sig)]))
        || (OnlyLast(rs, sig) && JustBegun(h, rs) && Caught(rs, sig)
            && (s.todo == [] || s.todo == [PutBack(s.leader)])))
  }

  lemma PauseTakes(s: Sys, sig: Signo, order: seq<Tid>, ok: bool)
    requires Inv(s) && s.todo == [Pause(sig)]
    ensures var n := Next(s, Control(order, ok));
            || (n == s && EventsOf(s, Control(order, ok)) == [])
            || exists w ::
                 && Ranges(order, s.tasks.Keys) && EventsOf(s, Control(order, ok)) == [Took(w)]
                 && n.todo == [Judge(sig)] && n.hand == Some(Held(s.leader, w))
  {
    hide Owed, TodoOk;
    if IsFull(s, s.leader) && Ranges(order, s.tasks.Keys) {
      var w := s.tasks[s.leader].slot.value;
      assert EventsOf(s, Control(order, ok)) == [Took(w)];
      assert Next(s, Control(order, ok)).hand == Some(Held(s.leader, w));
    }
  }

  lemma Judges(s: Sys, sig: Signo, order: seq<Tid>, ok: bool)
    requires Inv(s) && s.todo == [Judge(sig)] && s.hand.Some?
    ensures var n, g := Next(s, Control(order, ok)), StopSignal(s.hand.value.status);
            && EventsOf(s, Control(order, ok)) == []
            && (|| n == s
                || (g == sig && n.todo == [PutBack(s.leader)])
                || (g != sig && Ranges(order, s.tasks.Keys) && n.todo == ResumeAll(order, g) + [Pause(sig)]))
  {
    hide Owed, TodoOk, ResumeAll;
    var g := StopSignal(s.hand.value.status);
    assert ResumeAll(order, g) + [Pause(sig)] + [] == ResumeAll(order, g) + [Pause(sig)];
    assert [Judge(sig)][1..] == [];
  }

  lemma PutsBack(s: Sys, order: seq<Tid>, ok: bool)
    requires Inv(s) && s.todo == [PutBack(s.leader)]
    ensures var n := Next(s, Control(order, ok));
            EventsOf(s, Control(order, ok)) == [] && n.leader == s.leader && (n.todo == s.todo || n.todo == [])
  {
    hide Owed, TodoOk;
  }

  lemma LeaderStays(s: Sys, a: Action)
    ensures Next(s, a).leader == s.leader
  {
    hide Ranges, ResumeAll, Program, OpOk;
  }

  // What is reached from there.

  lemma JudgingBegins(n: Sys, h: seq<Event>, rs: seq<Round>, sig: Signo, w: Status, order: seq<Tid>)
    requires OrdersOk(rs, n.tasks.Keys) && h == AllEvents(rs) && NoneCaught(rs, sig) && Ranges(order, n.tasks.Keys)
    requires n.todo == [Judge(sig)] && n.hand == Some(Held(n.leader, w))
    ensures PausingAt(n, h + [Took(w)], rs + [Round(w, order)], sig)
  {
    hide GoingOn, AllEvents, Ranges, Base, InLast;
    OneMoreRound(rs, Round(w, order));
  }

  lemma JudgedOtherwise(n: Sys, h: seq<Event>, rs: seq<Round>, sig: Signo, order: seq<Tid>)
    requires OrdersOk(rs, n.tasks.Keys) && OnlyLast(rs, sig) && JustBegun(h, rs) && Ranges(order, n.tasks.Keys)
    requires var g := StopSignal(Last(rs).status);
             g != sig && n.todo == ResumeAll(order, g) + [Pause(sig)]
    ensures PausingAt(n, h, Front(rs) + [Round(Last(rs).status, order)], sig)
  {
    hide GoingOn, AllEvents, Ranges, Base, ResumeAll;
    SameBase(rs, order);
    GoingOnBegins(n, h, order, StopSignal(Last(rs).status), [Pause(sig)]);
  }

  lemma JudgedTheSignal(n: Sys, h: seq<Event>, rs: seq<Round>, sig: Signo)
    requires OrdersOk(rs, n.tasks.Keys) && OnlyLast(rs, sig) && JustBegun(h, rs) && Caught(rs, sig)
    requires n.todo == [PutBack(n.leader)] || n.todo == []
    ensures PausingAt(n, h, rs, sig)
  {
    hide InLast, Base, Ranges;
  }

  lemma StillJudging(n: Sys, h: seq<Event>, rs: seq<Round>, sig: Signo)
    requires OrdersOk(rs, n.tasks.Keys) && OnlyLast(rs, sig) && JustBegun(h, rs) && n.todo == [Judge(sig)]
    requires n.hand.Some? && n.hand.value.status == Last(rs).status
    ensures PausingAt(n, h, rs, sig)
  {
    hide InLast, Base, Ranges;
  }

  lemma StillPausing(n: Sys, h: seq<Event>, rs: seq<Round>, sig: Signo)
    requires OrdersOk(rs, n.tasks.Keys) && n.todo == [Pause(sig)] && h == AllEvents(rs) && NoneCaught(rs, sig)
    ensures PausingAt(n, h, rs, sig)
  {
    hide InLast, Base, Ranges;
  }

  lemma PausingTakesNext(s: Sys, a: Action, h: seq<Event>, rs: seq<Round>, sig: Signo) returns (rs': seq<Round>)
    requires Inv(s) && OrdersOk(rs, s.tasks.Keys) && !a.Call?
    requires s.todo == [Pause(sig)] && h == AllEvents(rs) && NoneCaught(rs, sig)
    ensures PausingAt(Next(s, a), h + EventsOf(s, a), rs', sig)
  {
    rs' := rs;
    NextKeepsTasks(s, a);
    LeaderStays(s, a);
    hide Inv, Next, EventsOf, PausingAt, OrdersOk, NoneCaught, AllEvents, Ranges;
    assert h + [] == h;
    if a.Control? {
      PauseTakes(s, sig, a.order, a.ok);
      if EventsOf(s, a) != [] {
        var w :| EventsOf(s, a) == [Took(w)] && Next(s, a).hand == Some(Held(s.leader, w));
        rs' := rs + [Round(w, a.order)];
        JudgingBegins(Next(s, a), h, rs, sig, w, a.order);
      } else {
        StillPausing(Next(s, a), h, rs, sig);
      }
    } else {
      WaitsForStatus(s, a);
      StillPausing(Next(s, a), h, rs, sig);
    }
  }

  lemma PausingJudgesNext(s: Sys, a: Action, h: seq<Event>, rs: seq<Round>, sig: Signo) returns (rs': seq<Round>)
    requires Inv(s) && OrdersOk(rs, s.tasks.Keys) && !a.Call?
    requires OnlyLast(rs, sig) && JustBegun(h, rs) && s.todo == [Judge(sig)] && s.hand.Some?
    requires s.hand.value.status == Last(rs).status
    ensures PausingAt(Next(s, a), h + EventsOf(s, a), rs', sig)
  {
    rs' := rs;
    NextKeepsTasks(s, a);
    LeaderStays(s, a);
    hide Inv, Next, EventsOf, PausingAt, OrdersOk, OnlyLast, Base, Ranges;
    assert h + [] == h;
    var n := Next(s, a);
    if a.Control? {
      Judges(s, sig, a.order, a.ok);
      if n == s {
        StillJudging(n, h, rs, sig);
      } else if StopSignal(Last(rs).status) == sig {
        JudgedTheSignal(n, h, rs, sig);
      } else {
        rs' := Front(rs) + [Round(Last(rs).status, a.order)];
        JudgedOtherwise(n, h, rs, sig, a.order);
      }
    } else {
      WaitsForStatus(s, a);
      StillJudging(n, h, rs, sig);
    }
  }

  lemma SameBase(rs: seq<Round>, order: seq<Tid>)
    requires rs != []
    ensures var rs' := Front(rs) + [Round(Last(rs).status, order)];
            Base(rs') == Base(rs) && Last(rs') == Round(Last(rs).status, order) && Front(rs') == Front(rs)
  {
  }

  lemma PausingNextRound(s: Sys, a: Action, h: seq<Event>, rs: seq<Round>, sig: Signo)
    requires Inv(s) && OrdersOk(rs, s.tasks.Keys) && !a.Call?
    requires NoneCaught(rs, sig) && InLast(s, h, rs, [Pause(sig)]) && s.todo != [Pause(sig)]
    ensures PausingAt(Next(s, a), h + EventsOf(s, a), rs, sig)
  {
    NextKeepsTasks(s, a);
    hide Inv, Next, EventsOf, GoingOn, AllEvents, Ranges, Base;
    GoingOnNext(s, a, h, Base(rs), Last(rs).order, StopSignal(Last(rs).status), [Pause(sig)]);
  }

  lemma PausingEnds(s: Sys, a: Action, h: seq<Event>, rs: seq<Round>, sig: Signo)
    requires Inv(s) && OrdersOk(rs, s.tasks.Keys) && !a.Call?
    requires OnlyLast(rs, sig) && JustBegun(h, rs) && Caught(rs, sig)
    requires s.todo == [] || s.todo == [PutBack(s.leader)]
    ensures PausingAt(Next(s, a), h + EventsOf(s, a), rs, sig)
  {
    NextKeepsTasks(s, a);
    LeaderStays(s, a);
    hide Inv, Next, EventsOf, GoingOn, AllEvents, Ranges, Base;
    assert h + [] == h;
    if s.todo == [] {
      Idles(s, a);
    } else if a.Control? {
      PutsBack(s, a.order, a.ok);
    } else {
      WaitsForStatus(s, a);
    }
  }

  lemma PausingAtNext(s: Sys, a: Action, h: seq<Event>, rs: seq<Round>, sig: Signo) returns (rs': seq<Round>)
    requires Inv(s) && PausingAt(s, h, rs, sig) && !a.Call?
    ensures PausingAt(Next(s, a), h + EventsOf(s, a), rs', sig)
  {
    rs' := rs;
    if s.todo == [Pause(sig)] {
      PauseIsNext(s, h, rs, sig);
      hide *;
      rs' := PausingTakesNext(s, a, h, rs, sig);
    } else if s.todo == [Judge(sig)] {
      JudgeIsNext(s, h, rs, sig);
      hide *;
      rs' := PausingJudgesNext(s, a, h, rs, sig);
    } else {
      hide Inv, Next, EventsOf, InLast, JustBegun, Ranges;
      if NoneCaught(rs, sig) && InLast(s, h, rs, [Pause(sig)]) {
        PausingNextRound(s, a, h, rs, sig);
      } else {
        PausingEnds(s, a, h, rs, sig);
      }
    }
  }

  lemma PauseIsNext(s: Sys, h: seq<Event>, rs: seq<Round>, sig: Signo)
    requires PausingAt(s, h, rs, sig) && s.todo == [Pause(sig)]
    ensures OrdersOk(rs, s.tasks.Keys) && h == AllEvents(rs) && NoneCaught(rs, sig)
  {
    hide GoingOn, AllEvents, Ranges;
    if NoneCaught(rs, sig) && InLast(s, h, rs, [Pause(sig)]) {
      GoingOnIsPrefix(s, h, Base(rs), Last(rs).order, StopSignal(Last(rs).status), [Pause(sig)]);
      RoundIsOver(rs);
    }
  }

  lemma JudgeIsNext(s: Sys, h: seq<Event>, rs: seq<Round>, sig: Signo)
    requires PausingAt(s, h, rs, sig) && s.todo == [Judge(sig)]
    ensures OrdersOk(rs, s.tasks.Keys) && OnlyLast(rs, sig) && JustBegun(h, rs) && s.hand.Some?
    ensures s.hand.value.status == Last(rs).status
  {
    hide GoingOn, AllEvents, Ranges, Base;
    if NoneCaught(rs, sig) && InLast(s, h, rs, [Pause(sig)]) {
      GoingOnIsPrefix(s, h, Base(rs), Last(rs).order, StopSignal(Last(rs).status), [Pause(sig)]);
    }
  }

  lemma {:induction false} PausingAtRun(s: Sys, actions: seq<Action>, h: seq<Event>, rs: seq<Round>, sig: Signo)
    returns (rs': seq<Round>)
    requires Inv(s) && PausingAt(s, h, rs, sig) && NoCalls(actions)
    ensures PausingAt(Run(s, actions), h + History(s, actions), rs', sig)
    decreases actions
  {
    hide Inv, Next, PausingAt, EventsOf;
    if actions == [] {
      rs' := rs;
      assert h + [] == h;
    } else {
      var a := actions[0];
      NextKeeps(s, a);
      rs' := PausingAtNext(s, a, h, rs, sig);
      rs' := PausingAtRun(Next(s, a), actions[1..], h + EventsOf(s, a), rs', sig);
      assert h + EventsOf(s, a) + History(Next(s, a), actions[1..]) == h + History(s, actions);
    }
  }

  lemma PausingMeans(e: Sys, h: seq<Event>, rs: seq<Round>, sig: Signo)
    requires Inv(e) && PausingAt(e, h, rs, sig)
    ensures InRounds(h, rs, e.tasks.Keys) && OnlyLast(rs, sig) && (Caught(rs, sig) ==> h == Base(rs))
    ensures e.todo == [] ==> Caught(rs, sig)
    ensures Caught(rs, sig) && IsFull(e, e.leader) ==> e.todo == []
  {
    hide GoingOn, Ranges, Trail, TodoOk, Owed, AttachedOk, TracerOk;
    if rs != [] {
      RoundIsOver(rs);
      if InLast(e, h, rs, [Pause(sig)]) {
        GoingOnIsPrefix(e, h, Base(rs), Last(rs).order, StopSignal(Last(rs).status), [Pause(sig)]);
      }
    }
  }

  lemma PauseFrom(m: Sys, sig: Signo, order: seq<Tid>, later: seq<Action>) returns (rs: seq<Round>)
    requires Inv(m) && m.todo == [] && Ranges(order, m.tasks.Keys) && NoCalls(later)
    ensures var n := Next(m, Call(PauseAtSignal(sig), order));
            var e, h := Run(n, later), History(n, later);
            && GoesInRounds(h, rs, m.tasks.Keys, sig) && (Caught(rs, sig) ==> h == Base(rs))
            && (e.todo == [] ==> Caught(rs, sig)) && (Caught(rs, sig) && IsFull(e, e.leader) ==> e.todo == [])
  {
    var n := Next(m, Call(PauseAtSignal(sig), order));
    NextKeeps(m, Call(PauseAtSignal(sig), order));
    TasksStay(n, later);
    RunInv(n, later);
    hide Inv, Run, Next, History;
    assert PausingAt(n, [], [], sig);
    rs := PausingAtRun(n, later, [], [], sig);
    assert [] + History(n, later) == History(n, later);
    hide PausingAt, InRounds, OnlyLast, Caught, Base, IsFull;
    PausingMeans(Run(n, later), History(n, later), rs, sig);
  }

  /** PauseAtSignal goes in rounds like AwaitSignal, but lets no thread go on after it has taken
      the awaited status: it returns exactly when that status is back on the leader's channel. */
  lemma PauseAtSignalHoldsIt(s: Sys, before: seq<Action>, sig: Signo, order: seq<Tid>, later: seq<Action>)
    requires IsInitial(s) && NoCalls(later)
    requires Run(s, before).todo == [] && Run(s, before).attached && Ranges(order, s.tasks.Keys)
    ensures var n := Next(Run(s, before), Call(PauseAtSignal(sig), order));
            var e, h := Run(n, later), History(n, later);
            exists rs: seq<Round> ::
              && GoesInRounds(h, rs, s.tasks.Keys, sig) && (Caught(rs, sig) ==> h == Base(rs))
              && (e.todo == [] <==> Caught(rs, sig) && IsFull(e, e.leader))
  {
    hide *;
    Reached(s, before);
    PauseAtSignalPausesThere(s, before, sig, order, later);
    var rs := PauseFrom(Run(s, before), sig, order, later);
    ParkedIsFull(Run(Next(Run(s, before), Call(PauseAtSignal(sig), order)), later));
  }

  lemma ParkedIsFull(e: Sys)
    ensures Parked(e, e.leader) ==> IsFull(e, e.leader)
  {
  }
}

/**
 images/python/refunction.py: the server loop that runs in a worker.
 */
module FunctionServer {
  import opened Results
  import opened Workers

  /** Serving one message after the other; fates[i] says what becomes of the user's code then. */
  function ServeAll(r: Runtime, fates: seq<Fate>): Runtime
    decreases fates
  {
    if fates == [] then r else ServeAll(Serve(r, fates[0]), fates[1..])
  }

  // ----- What the server should have done, from the lines alone -----

  /** The line that ends the wait for a function: one that loads, or whose code exits. */
  predicate EndsWait(line: Command, fate: Fate) {
    line.FunctionMsg? && fate != Raises
  }

  /** While it waits, code that raises and a line that is no object are answered with false. */
  predicate Fails(line: Command, fate: Fate) {
    (line.FunctionMsg? && fate == Raises) || line.BareLine?
  }

  /** What ends the process once a function is loaded. */
  predicate Breaks(line: Command, fate: Fate) {
    (line.RequestMsg? && fate != Fine) || line.BareLine?
  }

  /** The first line that ends the wait, or the number of lines. */
  function WaitEnd(lines: seq<Command>, fates: seq<Fate>): (k: nat)
    requires |lines| == |fates|
    ensures k <= |lines| && (k < |lines| ==> EndsWait(lines[k], fates[k]))
    ensures forall j :: 0 <= j < k ==> !EndsWait(lines[j], fates[j])
  {
    if lines == [] || EndsWait(lines[0], fates[0]) then 0 else WaitEnd(lines[1..], fates[1..]) + 1
  }

  /** The first line that breaks the loaded server, or the number of lines. */
  function BreakAt(lines: seq<Command>, fates: seq<Fate>): (k: nat)
    requires |lines| == |fates|
    ensures k <= |lines| && (k < |lines| ==> Breaks(lines[k], fates[k]))
    ensures forall j :: 0 <= j < k ==> !Breaks(lines[j], fates[j])
  {
    if lines == [] || Breaks(lines[0], fates[0]) then 0 else BreakAt(lines[1..], fates[1..]) + 1
  }

  /** One false for each line that fails. */
  function Refusals(lines: seq<Command>, fates: seq<Fate>): seq<Message>
    requires |lines| == |fates|
  {
    if lines == [] then []
    else (if Fails(lines[0], fates[0]) then [LoadedMsg(false)] else []) + Refusals(lines[1..], fates[1..])
  }

  /** One answer for each request, in their order. */
  function Answers(c: Code, lines: seq<Command>): seq<Message> {
    if lines == [] then []
    else
      (if lines[0].RequestMsg? then [ResponseMsg(Computed(c, lines[0].data))] else []) + Answers(c, lines[1..])
  }

  /** A server in which c is loaded, and which has written out, at the end of these lines. */
  function Loaded(c: Code, out: seq<Message>, lines: seq<Command>, fates: seq<Fate>): Runtime
    requires |lines| == |fates|
  {
    var k := BreakAt(lines, fates);
    Runtime(k == |lines|, Some(c), if k == |lines| then [] else lines[k + 1..], out + Answers(c, lines[..k]))
  }

  /** A server that waits for a function, at the end of these lines. */
  function Expected(out: seq<Message>, lines: seq<Command>, fates: seq<Fate>): Runtime
    requires |lines| == |fates|
  {
    var k := WaitEnd(lines, fates);
    var refused := out + Refusals(lines[..k], fates[..k]);
    if k == |lines| then Runtime(true, None, [], refused)
    else if fates[k] == Exits then Runtime(false, None, lines[k + 1..], refused)
    else Loaded(lines[k].code, refused + [LoadedMsg(true)], lines[k + 1..], fates[k + 1..])
  }

  class Server {
    var loaded: Option<Code>
    var stdin: seq<Command>
    var stdout: seq<Message>
    var alive: bool

    ghost function Now(): Runtime
      reads this
    {
      Runtime(alive, loaded, stdin, stdout)
    }

    constructor (lines: seq<Command>)
      ensures Now() == Runtime(true, None, lines, [])
    {
      alive, loaded, stdin, stdout := true, None, lines, [];
    }

    method Receive() returns (line: Command)
      requires stdin != []
      modifies this`stdin
      ensures [line] + stdin == old(stdin)
    {
      line, stdin := stdin[0], stdin[1..];
    }

    /** What the runtime is with this line still to be read. */
    ghost function Before(line: Command): Runtime
      reads this
    {
      Runtime(alive, loaded, [line] + stdin, stdout)
    }

    /** One line while a function is awaited. */
    method Await(line: Command, fate: Fate)
      requires alive && loaded == None
      modifies this`alive, this`loaded, this`stdout
      ensures Now() == Serve(old(Before(line)), fate)
    {
      if line.FunctionMsg? {
        match fate
        case Fine =>
          loaded := Some(line.code);
          stdout := stdout + [LoadedMsg(true)];
        case Raises =>
          stdout := stdout + [LoadedMsg(false)];
        case Exits =>
          alive := false;
      } else if line.BareLine? {
        stdout := stdout + [LoadedMsg(false)];
      }
    }

    /** One line once a function is loaded. */
    method Answer(line: Command, fate: Fate)
      requires alive && loaded.Some?
      modifies this`alive, this`stdout
      ensures Now() == Serve(old(Before(line)), fate)
    {
      if line.RequestMsg? {
        if fate.Fine? {
          stdout := stdout + [ResponseMsg(Computed(loaded.value, line.data))];
        } else {
          alive := false;
        }
      } else if line.BareLine? {
        alive := false;
      }
    }

    /** The two loops, until the input that is there is used up or the process is gone. A first
        message that loads a function switches from one loop to the other for good. */
    method StartFunctionServer(fates: seq<Fate>)
      requires alive && loaded == None && |fates| == |stdin|
      modifies this
      ensures Now() == ServeAll(old(Now()), fates)
      ensures Now() == Expected(old(stdout), old(stdin), fates)
    {
      ServesAsExpected(Now(), fates);
      hide Expected, ServeAll, Serve;
      assert fates[0..] == fates;
      var i := 0;
      while alive && loaded.None? && i < |fates|
        invariant i <= |fates| && |stdin| == |fates| - i
        invariant ServeAll(Now(), fates[i..]) == ServeAll(old(Now()), fates)
      {
        OneTurn(Now(), fates, i);
        ServeTakesOne(Now(), fates[i]);
        var line := Receive();
        Await(line, fates[i]);
        i := i + 1;
      }
      while alive && i < |fates|
        invariant i <= |fates| && |stdin| == |fates| - i && (alive && i < |fates| ==> loaded.Some?)
        invariant ServeAll(Now(), fates[i..]) == ServeAll(old(Now()), fates)
      {
        OneTurn(Now(), fates, i);
        ServeTakesOne(Now(), fates[i]);
        var line := Receive();
        Answer(line, fates[i]);
        i := i + 1;
      }
      if alive {
        assert fates[i..] == [];
        NothingToServe(Now());
      } else {
        DeadServesNothing(Now(), fates[i..]);
      }
    }
  }

  lemma ServeTakesOne(r: Runtime, fate: Fate)
    ensures r.alive && r.inbox != [] ==> Serve(r, fate).inbox == r.inbox[1..]
    ensures r.loaded.Some? ==> Serve(r, fate).loaded == r.loaded
  {
  }

  lemma OneTurn(r: Runtime, fates: seq<Fate>, i: nat)
    requires i < |fates|
    ensures ServeAll(r, fates[i..]) == ServeAll(Serve(r, fates[i]), fates[i + 1..])
  {
    assert fates[i..][1..] == fates[i + 1..];
  }

  lemma NothingToServe(r: Runtime)
    ensures ServeAll(r, []) == r
  {
  }

  lemma DeadServesNothing(r: Runtime, fates: seq<Fate>)
    requires !r.alive
    ensures ServeAll(r, fates) == r
    decreases fates
  {
  }

  // ----- The two agree -----

  /** What a loaded server answers to one line that does not break it. */
  function AnswerTo(c: Code, line: Command): seq<Message> {
    if line.RequestMsg? then [ResponseMsg(Computed(c, line.data))] else []
  }

  /** What a waiting server answers to one line that does not end the wait. */
  function RefusalOf(line: Command, fate: Fate): seq<Message> {
    if Fails(line, fate) then [LoadedMsg(false)] else []
  }

  lemma LoadedLine(r: Runtime, fate: Fate)
    requires r.alive && r.loaded.Some? && r.inbox != []
    ensures Serve(r, fate)
         == if Breaks(r.inbox[0], fate) then Runtime(false, r.loaded, r.inbox[1..], r.outbox)
            else Runtime(true, r.loaded, r.inbox[1..], r.outbox + AnswerTo(r.loaded.value, r.inbox[0]))
  {
    assert r.outbox + [] == r.outbox;
  }

  lemma WaitingLine(r: Runtime, fate: Fate)
    requires r.alive && r.loaded == None && r.inbox != []
    ensures Serve(r, fate)
         == if !EndsWait(r.inbox[0], fate) then
              Runtime(true, None, r.inbox[1..], r.outbox + RefusalOf(r.inbox[0], fate))
            else if fate == Exits then Runtime(false, None, r.inbox[1..], r.outbox)
            else Runtime(true, Some(r.inbox[0].code), r.inbox[1..], r.outbox + [LoadedMsg(true)])
  {
    assert r.outbox + [] == r.outbox;
  }

  lemma FirstAnswer(c: Code, lines: seq<Command>, k: nat)
    requires k < |lines|
    ensures Answers(c, lines[..k + 1]) == AnswerTo(c, lines[0]) + Answers(c, lines[1..][..k])
  {
    assert lines[..k + 1][1..] == lines[1..][..k];
  }

  lemma FirstRefusal(lines: seq<Command>, fates: seq<Fate>, k: nat)
    requires k < |lines| == |fates|
    ensures Refusals(lines[..k + 1], fates[..k + 1])
         == RefusalOf(lines[0], fates[0]) + Refusals(lines[1..][..k], fates[1..][..k])
  {
    assert lines[..k + 1][1..] == lines[1..][..k] && fates[..k + 1][1..] == fates[1..][..k];
  }

  lemma LoadedGoesOn(c: Code, out: seq<Message>, lines: seq<Command>, fates: seq<Fate>)
    requires |lines| == |fates| > 0
    ensures Loaded(c, out, lines, fates)
         == if Breaks(lines[0], fates[0]) then Runtime(false, Some(c), lines[1..], out)
            else Loaded(c, out + AnswerTo(c, lines[0]), lines[1..], fates[1..])
  {
    hide AnswerTo, Breaks;
    if Breaks(lines[0], fates[0]) {
      assert out + [] == out;
    } else {
      var k := BreakAt(lines[1..], fates[1..]);
      FirstAnswer(c, lines, k);
      var rest := Answers(c, lines[1..][..k]);
      hide Answers;
      assert out + (AnswerTo(c, lines[0]) + rest) == out + AnswerTo(c, lines[0]) + rest;
    }
  }

  lemma WaitGoesOn(out: seq<Message>, lines: seq<Command>, fates: seq<Fate>)
    requires |lines| == |fates| > 0
    ensures Expected(out, lines, fates)
         == if !EndsWait(lines[0], fates[0]) then
              Expected(out + RefusalOf(lines[0], fates[0]), lines[1..], fates[1..])
            else if fates[0] == Exits then Runtime(false, None, lines[1..], out)
            else Loaded(lines[0].code, out + [LoadedMsg(true)], lines[1..], fates[1..])
  {
    hide RefusalOf, Loaded, Fails;
    if EndsWait(lines[0], fates[0]) {
      assert out + [] == out;
    } else {
      var k := WaitEnd(lines[1..], fates[1..]);
      FirstRefusal(lines, fates, k);
      var rest := Refusals(lines[1..][..k], fates[1..][..k]);
      hide Refusals, EndsWait;
      assert out + (RefusalOf(lines[0], fates[0]) + rest) == out + RefusalOf(lines[0], fates[0]) + rest;
    }
  }

  lemma {:induction false} LoadedServes(r: Runtime, fates: seq<Fate>)
    requires r.alive && r.loaded.Some? && |fates| == |r.inbox|
    ensures ServeAll(r, fates) == Loaded(r.loaded.value, r.outbox, r.inbox, fates)
    decreases fates
  {
    if fates == [] {
      assert r.outbox + [] == r.outbox;
    } else {
      hide Serve, Loaded, Breaks, AnswerTo;
      LoadedLine(r, fates[0]);
      LoadedGoesOn(r.loaded.value, r.outbox, r.inbox, fates);
      if Breaks(r.inbox[0], fates[0]) {
        DeadServesNothing(Serve(r, fates[0]), fates[1..]);
      } else {
        LoadedServes(Serve(r, fates[0]), fates[1..]);
      }
    }
  }

  lemma {:induction false} ServesAsExpected(r: Runtime, fates: seq<Fate>)
    requires r.alive && r.loaded == None && |fates| == |r.inbox|
    ensures ServeAll(r, fates) == Expected(r.outbox, r.inbox, fates)
    decreases fates
  {
    if fates == [] {
      assert r.outbox + [] == r.outbox;
    } else {
      hide Serve, Loaded, Expected, RefusalOf;
      WaitingLine(r, fates[0]);
      WaitGoesOn(r.outbox, r.inbox, fates);
      if !EndsWait(r.inbox[0], fates[0]) {
        ServesAsExpected(Serve(r, fates[0]), fates[1..]);
      } else if fates[0] == Exits {
        DeadServesNothing(Serve(r, fates[0]), fates[1..]);
      } else {
        LoadedServes(Serve(r, fates[0]), fates[1..]);
      }
    }
  }

  // ----- A function that does not load -----

  predicate AllRaise(lines: seq<Command>, fates: seq<Fate>) {
    |lines| == |fates| && forall j :: 0 <= j < |lines| ==> lines[j].FunctionMsg? && fates[j] == Raises
  }

  predicate AllRequests(lines: seq<Command>, fates: seq<Fate>) {
    |lines| == |fates| && forall j :: 0 <= j < |lines| ==> lines[j].RequestMsg? && fates[j] == Fine
  }

  lemma {:induction false} RefusalsOfRaising(lines: seq<Command>, fates: seq<Fate>)
    requires AllRaise(lines, fates)
    ensures Refusals(lines, fates) == seq(|lines|, i => LoadedMsg(false))
    decreases |lines|
  {
    if lines != [] {
      RefusalsOfRaising(lines[1..], fates[1..]);
    }
  }

  lemma {:induction false} AnswersToRequests(c: Code, lines: seq<Command>, fates: seq<Fate>)
    requires AllRequests(lines, fates)
    ensures Answers(c, lines)
         == seq(|lines|, i requires 0 <= i < |lines| => ResponseMsg(Computed(c, lines[i].data)))
    decreases |lines|
  {
    if lines != [] {
      AnswersToRequests(c, lines[1..], fates[1..]);
    }
  }

  /** After n functions that raise and one that loads the server is alive, has the last one
      loaded, and has said no n times and yes once; and then it answers request after request. */
  lemma ServerRecovers(bad: seq<Command>, bf: seq<Fate>, c: Code, requests: seq<Command>, rf: seq<Fate>)
    requires AllRaise(bad, bf) && AllRequests(requests, rf)
    ensures ServeAll(Runtime(true, None, bad + [FunctionMsg(c)] + requests, []), bf + [Fine] + rf)
         == Runtime(true, Some(c), [],
              seq(|bad|, i => LoadedMsg(false)) + [LoadedMsg(true)]
              + seq(|requests|, i requires 0 <= i < |requests| => ResponseMsg(Computed(c, requests[i].data))))
  {
    hide ServeAll, Expected;
    var lines, fates := bad + [FunctionMsg(c)] + requests, bf + [Fine] + rf;
    ServesAsExpected(Runtime(true, None, lines, []), fates);
    ExpectedToRecover(bad, bf, c, requests, rf);
    RefusalsOfRaising(bad, bf);
    AnswersToRequests(c, requests, rf);
    assert [] + Refusals(bad, bf) == Refusals(bad, bf);
  }

  lemma ExpectedToRecover(bad: seq<Command>, bf: seq<Fate>, c: Code, requests: seq<Command>, rf: seq<Fate>)
    requires AllRaise(bad, bf) && AllRequests(requests, rf)
    ensures Expected([], bad + [FunctionMsg(c)] + requests, bf + [Fine] + rf)
         == Runtime(true, Some(c), [], [] + Refusals(bad, bf) + [LoadedMsg(true)] + Answers(c, requests))
  {
    hide Refusals, Answers;
    var lines, fates := bad + [FunctionMsg(c)] + requests, bf + [Fine] + rf;
    var n := |bad|;
    assert forall j :: 0 <= j < n ==> lines[j] == bad[j] && fates[j] == bf[j];
    assert EndsWait(lines[n], fates[n]);
    assert WaitEnd(lines, fates) == n;
    assert lines[..n] == bad && fates[..n] == bf && lines[n + 1..] == requests && fates[n + 1..] == rf;
    assert BreakAt(requests, rf) == |requests|;
    assert requests[..|requests|] == requests;
  }
}

/**
 The scheduler with everything around it that can interleave: callers of Run, decommission
 timers (one for every cold start, so a worker may have several), forced evictions, and the
 runtimes in the workers, which talk to the controller over two pipes.

 Every critical section of invoker/workerpool/scheduler.go is one step, and so is every write
 to a pipe, every message read from one, every restore, and every turn of the loop in
 images/python/refunction.py. A step whose outcome the goroutine does not control takes it
 as an argument.
 */
module Workers {
  import opened Results
  import opened Pool

  datatype Code = Code(text: string)
  datatype Data = Data(json: string)

  /** What the user's function computes: only where it comes from matters here. */
  datatype Response = Computed(code: Code, data: Data)

  /** A function document; None when CodeString returns an error. */
  datatype Doc = Doc(id: FunctionId, code: Option<Code>)

  // ----- The runtime in a worker -----

  /** OtherLine: a line that is no JSON, or an object of another type or without its two members.
      BareLine: a JSON value that is no object, on which asking for its members raises. */
  datatype Command = FunctionMsg(code: Code) | RequestMsg(data: Data) | OtherLine | BareLine
  datatype Message = LoadedMsg(success: bool) | ResponseMsg(response: Response)

  datatype Runtime = Runtime(alive: bool, loaded: Option<Code>, inbox: seq<Command>, outbox: seq<Message>)

  /** As it was when the checkpoint was taken: waiting for a function, nothing in the pipes. */
  const FRESH := Runtime(true, None, [], [])

  /** What becomes of the user's code while it is loaded or called. */
  datatype Fate = Fine | Raises | Exits

  /** One line: before a function is loaded everything but a function is skipped, afterwards
      everything but a request. Whatever raises while the function is awaited and loaded counts as
      a failed load, and the loop goes on waiting; leaving the interpreter ends the process, and
      so does whatever raises later. */
  function Serve(r: Runtime, fate: Fate): Runtime {
    if !r.alive || r.inbox == [] then r
    else
      var rest := r.(inbox := r.inbox[1..]);
      match (r.loaded, r.inbox[0])
      case (None, FunctionMsg(c)) =>
        (match fate
         case Fine => rest.(loaded := Some(c), outbox := r.outbox + [LoadedMsg(true)])
         case Raises => rest.(outbox := r.outbox + [LoadedMsg(false)])
         case Exits => rest.(alive := false))
      case (Some(c), RequestMsg(d)) =>
        if fate.Fine? then rest.(outbox := r.outbox + [ResponseMsg(Computed(c, d))])
        else rest.(alive := false)
      case (None, BareLine) => rest.(outbox := r.outbox + [LoadedMsg(false)])
      case (Some(_), BareLine) => rest.(alive := false)
      case _ => rest
  }

  /** Restoring the process does not touch what is in the pipes. */
  function RestoreRuntime(r: Runtime): Runtime {
    Runtime(true, None, r.inbox, r.outbox)
  }

  // ----- Goroutines -----

  datatype Stage =
    | Load | AwaitLoaded | Ask | AwaitResponse | Answered(response: Response) | Completing(response: Response)

  /** What follows a restore: Run starts over, or the timer ends. */
  datatype After = Again(doc: Doc, data: Data) | TimerEnds

  datatype Thread =
    | Start(doc: Doc, data: Data)
    | Missed(doc: Doc, data: Data)
    | Forcing(doc: Doc, data: Data)
    | Busy(w: Worker, doc: Doc, data: Data, cold: bool, stage: Stage)
    | Restoring(w: Worker, after: After)
    | Returning(w: Worker, after: After)
    | Spawning(w: Worker, doc: Doc, data: Data, response: Response)
    | Answer(doc: Doc, data: Data, response: Response)
    | Stuck(w: Worker, doc: Doc)
    | Timer(w: Worker)
    | Finished

  /** Where a worker is. Nothing reads this but the proofs. */
  datatype Place = Undeployed | Deployed | Running(t: nat) | BeingRestored(t: nat) | Dropped

  datatype Sys = Sys(
    lists: Lists,
    functions: map<Worker, FunctionId>,
    runtimes: map<Worker, Runtime>,
    threads: map<nat, Thread>,
    docs: set<Doc>,
    place: map<Worker, Place>,
    clock: nat,
    completedAt: map<Worker, nat>)

  ghost predicate IsInitial(s: Sys) {
    && NoDup(s.lists.undeployed)
    && s.lists.deployed == [] && s.lists.running == []
    && s.functions.Keys == s.runtimes.Keys == s.place.Keys
    && (forall w :: w in s.place <==> w in s.lists.undeployed)
    && (forall w :: w in s.place ==> s.place[w] == Undeployed && s.runtimes[w] == FRESH)
    && s.threads == map[] && s.docs == {}
    && s.clock == 0 && s.completedAt == map[]
  }

  // ----- Steps -----

  datatype Action =
    | Call(t: nat, doc: Doc, data: Data)
    | Go(t: nat, good: bool)
    | Spawn(t: nat, timer: nat)
    | Work(w: Worker, fate: Fate)

  function Continue(after: After): Thread {
    match after
    case Again(doc, data) => Start(doc, data)
    case TimerEnds => Finished
  }

  function Put(s: Sys, t: nat, thread: Thread): Sys {
    s.(threads := s.threads[t := thread])
  }

  /** RunDeployedFunction. */
  function StartStep(s: Sys, t: nat, doc: Doc, data: Data): Sys {
    var i := Holder(s.lists.deployed, s.functions, doc.id);
    if i < |s.lists.deployed| then
      var w := s.lists.deployed[i];
      Put(s, t, Busy(w, doc, data, false, Ask)).(lists := TakeDeployed(s.lists, i), place := s.place[w := Running(t)])
    else Put(s, t, Missed(doc, data))
  }

  /** RunUndeployed under the lock, or on to ForceDecomission. */
  function MissedStep(s: Sys, t: nat, doc: Doc, data: Data): Sys {
    if s.lists.undeployed != [] then
      var w := s.lists.undeployed[0];
      Put(s, t, Busy(w, doc, data, true, Load)).(lists := TakeUndeployed(s.lists), place := s.place[w := Running(t)])
    else Put(s, t, Forcing(doc, data))
  }

  /** Takes a deployed worker out of the list to restore it. */
  function EvictStep(s: Sys, t: nat, i: nat, after: After): Sys
    requires i < |s.lists.deployed|
  {
    var w := s.lists.deployed[i];
    Put(s, t, Restoring(w, after)).(lists := Evict(s.lists, i), place := s.place[w := BeingRestored(t)])
  }

  function ForcingStep(s: Sys, t: nat, doc: Doc, data: Data): Sys {
    if s.lists.deployed == [] then s else EvictStep(s, t, 0, Again(doc, data))
  }

  /** Decomission: Restore may fail, and does when the process is gone; the worker is dropped then. */
  function RestoringStep(s: Sys, t: nat, w: Worker, after: After, good: bool): Sys {
    if w !in s.runtimes then s
    else if good && s.runtimes[w].alive then
      Put(s, t, Returning(w, after)).(runtimes := s.runtimes[w := RestoreRuntime(s.runtimes[w])])
    else Put(s, t, Continue(after)).(place := s.place[w := Dropped])
  }

  function ReturningStep(s: Sys, t: nat, w: Worker, after: After): Sys {
    Put(s, t, Continue(after)).(lists := GiveBack(s.lists, w), place := s.place[w := Undeployed])
  }

  /** A timer whose worker has been idle for long enough. */
  function TimerStep(s: Sys, t: nat, w: Worker, elapsed: bool): Sys {
    if !elapsed then s
    else
      match Verdict(s.lists, w)
      case Restore => EvictStep(s, t, IndexOf(s.lists.deployed, w), TimerEnds)
      case Stop => Put(s, t, Finished)
      case Retry => s
  }

  function Send(r: Runtime, m: Command): Runtime {
    r.(inbox := r.inbox + [m])
  }

  function Receive(r: Runtime): Runtime
    requires r.outbox != []
  {
    r.(outbox := r.outbox[1..])
  }

  /** A caller of Run that holds worker w. */
  function BusyStep(s: Sys, t: nat, b: Thread): Sys
    requires b.Busy?
  {
    var w := b.w;
    if w !in s.runtimes then s
    else
      var r := s.runtimes[w];
      match b.stage
      case Load =>
        if b.doc.code.None? then Put(s, t, Stuck(w, b.doc))
        else Put(s, t, b.(stage := AwaitLoaded)).(runtimes := s.runtimes[w := Send(r, FunctionMsg(b.doc.code.value))])
      case AwaitLoaded =>
        if r.outbox == [] then s
        else Put(s, t, if r.outbox[0].LoadedMsg? then b.(stage := Ask) else b).(runtimes := s.runtimes[w := Receive(r)])
      case Ask =>
        Put(s, t, b.(stage := AwaitResponse)).(runtimes := s.runtimes[w := Send(r, RequestMsg(b.data))])
      case AwaitResponse =>
        if r.outbox == [] then s
        else
          Put(s, t, if r.outbox[0].ResponseMsg? then b.(stage := Answered(r.outbox[0].response)) else b)
          .(runtimes := s.runtimes[w := Receive(r)])
      case Answered(x) =>
        Put(s, t, b.(stage := Completing(x))).(functions := if b.cold then s.functions[w := b.doc.id] else s.functions)
      case Completing(x) =>
        if s.lists.running == [] then s
        else
          Put(s, t, if b.cold then Spawning(w, b.doc, b.data, x) else Answer(b.doc, b.data, x))
          .(lists := Complete(s.lists, w), place := s.place[w := Deployed],
            completedAt := s.completedAt[w := s.clock], clock := s.clock + 1)
  }

  function GoStep(s: Sys, t: nat, good: bool): Sys {
    if t !in s.threads then s
    else
      match s.threads[t]
      case Start(doc, data) => StartStep(s, t, doc, data)
      case Missed(doc, data) => MissedStep(s, t, doc, data)
      case Forcing(doc, data) => ForcingStep(s, t, doc, data)
      case Busy(_, _, _, _, _) => BusyStep(s, t, s.threads[t])
      case Restoring(w, after) => RestoringStep(s, t, w, after, good)
      case Returning(w, after) => ReturningStep(s, t, w, after)
      case Timer(w) => TimerStep(s, t, w, good)
      case _ => s
  }

  function Next(s: Sys, a: Action): Sys {
    match a
    case Call(t, doc, data) =>
      if t in s.threads then s else Put(s, t, Start(doc, data)).(docs := s.docs + {doc})
    case Go(t, good) => GoStep(s, t, good)
    case Spawn(t, timer) =>
      if t in s.threads && s.threads[t].Spawning? && timer !in s.threads then
        var x := s.threads[t];
        Put(Put(s, t, Answer(x.doc, x.data, x.response)), timer, Timer(x.w))
      else s
    case Work(w, fate) =>
      if w in s.runtimes then s.(runtimes := s.runtimes[w := Serve(s.runtimes[w], fate)]) else s
  }

  function Run(s: Sys, actions: seq<Action>): Sys
    decreases actions
  {
    if actions == [] then s else Run(Next(s, actions[0]), actions[1..])
  }

  // ----- The invariant -----

  ghost predicate NoDup<T(!new)>(s: seq<T>) {
    forall i, j :: 0 <= i < j < |s| ==> s[i] != s[j]
  }

  /** The code c came with a document of that id. */
  ghost predicate Comes(docs: set<Doc>, id: FunctionId, c: Code) {
    Doc(id, Some(c)) in docs
  }

  /** The response was computed on this data by code that came under the id of this document. */
  ghost predicate Correct(docs: set<Doc>, doc: Doc, data: Data, x: Response) {
    x.data == data && Comes(docs, doc.id, x.code)
  }

  ghost predicate Quiet(r: Runtime) {
    r.inbox == [] && r.outbox == []
  }

  /** Idle, with a function loaded that came under this id. */
  ghost predicate Serving(docs: set<Doc>, id: FunctionId, r: Runtime) {
    r.alive && Quiet(r) && r.loaded.Some? && Comes(docs, id, r.loaded.value)
  }

  ghost predicate StageOk(docs: set<Doc>, b: Thread, id: FunctionId, r: Runtime)
    requires b.Busy?
  {
    && b.doc in docs
    && (!b.cold ==> id == b.doc.id)
    && match b.stage
       case Load => b.cold && r == FRESH
       case AwaitLoaded =>
         && b.cold && b.doc.code.Some?
         && (|| (r.alive && r.loaded == None && r.inbox == [FunctionMsg(b.doc.code.value)] && r.outbox == [])
             || (r.alive && r.loaded == b.doc.code && r.inbox == [] && r.outbox == [LoadedMsg(true)])
             || (r.alive && r.loaded == None && r.inbox == [] && r.outbox == [LoadedMsg(false)])
             || (!r.alive && Quiet(r)))
       case Ask =>
         || Serving(docs, b.doc.id, r)
         || (b.cold && r == FRESH)
       case AwaitResponse =>
         || (r.loaded == None && r.outbox == [] && (r.inbox == [] || r.inbox == [RequestMsg(b.data)]))
         || (r.loaded.Some? && Comes(docs, b.doc.id, r.loaded.value)
             && (|| (r.alive && r.inbox == [RequestMsg(b.data)] && r.outbox == [])
                 || (r.alive && r.inbox == [] && r.outbox == [ResponseMsg(Computed(r.loaded.value, b.data))])
                 || (!r.alive && Quiet(r))))
       case Answered(x) => Serving(docs, b.doc.id, r) && Correct(docs, b.doc, b.data, x)
       case Completing(x) => Serving(docs, b.doc.id, r) && Correct(docs, b.doc, b.data, x) && id == b.doc.id
  }

  ghost predicate SameWorkers(s: Sys) {
    s.functions.Keys == s.runtimes.Keys == s.place.Keys
  }

  ghost predicate WorkerOk(s: Sys, w: Worker)
    requires SameWorkers(s) && w in s.place
  {
    match s.place[w]
    case Undeployed => s.runtimes[w] == FRESH
    case Deployed => Serving(s.docs, s.functions[w], s.runtimes[w])
    case Running(t) =>
      && t in s.threads
      && (|| (s.threads[t].Busy? && s.threads[t].w == w && StageOk(s.docs, s.threads[t], s.functions[w], s.runtimes[w]))
          || (s.threads[t].Stuck? && s.threads[t].w == w))
    case BeingRestored(t) =>
      && t in s.threads
      && (|| (s.threads[t].Restoring? && s.threads[t].w == w && Quiet(s.runtimes[w]))
          || (s.threads[t].Returning? && s.threads[t].w == w && s.runtimes[w] == FRESH))
    case Dropped => true
  }

  ghost predicate AfterOk(docs: set<Doc>, after: After) {
    after.Again? ==> after.doc in docs
  }

  ghost predicate ThreadOk(s: Sys, t: nat)
    requires t in s.threads
  {
    match s.threads[t]
    case Start(doc, _) => doc in s.docs
    case Missed(doc, _) => doc in s.docs
    case Forcing(doc, _) => doc in s.docs
    case Busy(w, _, _, _, _) => w in s.place && s.place[w] == Running(t)
    case Stuck(w, _) => w in s.place && s.place[w] == Running(t)
    case Restoring(w, after) => w in s.place && s.place[w] == BeingRestored(t) && AfterOk(s.docs, after)
    case Returning(w, after) => w in s.place && s.place[w] == BeingRestored(t) && AfterOk(s.docs, after)
    case Spawning(_, doc, data, x) => doc in s.docs && Correct(s.docs, doc, data, x)
    case Answer(doc, data, x) => doc in s.docs && Correct(s.docs, doc, data, x)
    case Timer(_) => true
    case Finished => true
  }

  /** The lists have no duplicates and say where the workers are. */
  ghost predicate Listed(s: Sys) {
    && NoDup(s.lists.undeployed) && NoDup(s.lists.deployed) && NoDup(s.lists.running)
    && (forall w :: w in s.lists.undeployed <==> w in s.place && s.place[w] == Undeployed)
    && (forall w :: w in s.lists.deployed <==> w in s.place && s.place[w] == Deployed)
    && (forall w :: w in s.lists.running <==> w in s.place && s.place[w].Running?)
  }

  /** The deployed list is in order of last completion. */
  ghost predicate InOrder(s: Sys) {
    && (forall w :: w in s.lists.deployed ==> w in s.completedAt && s.completedAt[w] < s.clock)
    && (forall i, j :: 0 <= i < j < |s.lists.deployed| ==>
          s.completedAt[s.lists.deployed[i]] < s.completedAt[s.lists.deployed[j]])
  }

  ghost predicate Inv(s: Sys) {
    && SameWorkers(s)
    && Listed(s)
    && (forall w :: w in s.place ==> WorkerOk(s, w))
    && (forall t :: t in s.threads ==> ThreadOk(s, t))
    && InOrder(s)
  }
}

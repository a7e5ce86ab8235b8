/** Running one turn's tool calls (runtools.go, runToolCalls): the scheduling loop, one goroutine per call behind a
    semaphore, the buffered result channel and the collecting loop, interleaved in every possible way. */
module ToolPool {
  import opened Counting
  import opened Options

  datatype Call = Call(id: string, name: string)

  /** How a call ended: the handler's result or error, which ToolRegistry.Handle turns into messages itself, no handler
      that could be called, or a panic. */
  datatype Outcome =
    | Handled(content: string) | HandlerFailed(err: string) | DispatchFailed(err: string) | Panicked(what: string)

  datatype Message = Message(callID: string, name: string, content: string)

  /** The tool message for a call, whatever became of it. */
  function ResultOf(call: Call, o: Outcome): Message {
    match o
    case Handled(content) => Message(call.id, call.name, content)
    case HandlerFailed(err) => ErrorFor(call, err)
    case DispatchFailed(err) => ErrorFor(call, err)
    case Panicked(what) => ErrorFor(call, "tool " + Quoted(call.name) + " panicked: " + what)
  }

  /** ToolResultError. */
  function ErrorFor(call: Call, err: string): Message {
    Message(call.id, call.name, "Error: " + err)
  }

  function Quoted(s: string): string {
    "\"" + s + "\""
  }

  predicate EndsIn(s: string, end: string) {
    |end| <= |s| && s[|s| - |end|..] == end
  }

  /** Message `m` tells the model how `call` ended: under the call's ID and name it has the handler's content as it is,
      or else a text that is marked as an error and ends with what went wrong. */
  predicate Tells(m: Message, call: Call, o: Outcome) {
    && m.callID == call.id && m.name == call.name
    && match o
       case Handled(content) => m.content == content
       case HandlerFailed(err) => m.content == "Error: " + err
       case DispatchFailed(err) => m.content == "Error: " + err
       case Panicked(what) => "Error: tool " <= m.content && EndsIn(m.content, " panicked: " + what)
  }

  lemma {:induction false} ResultTells(call: Call, o: Outcome)
    ensures Tells(ResultOf(call, o), call, o)
  {
    if o.Panicked? {
      var content := ResultOf(call, o).content;
      assert content == ("Error: tool " + Quoted(call.name)) + (" panicked: " + o.what);
      assert content == "Error: tool " + (Quoted(call.name) + " panicked: " + o.what);
    }
  }

  /** A goroutine; `sent` says whether it sent a result or found its context done first. */
  datatype Worker =
    | Unstarted | Spawned | Handling | Sending(outcome: Outcome) | Releasing(sent: bool) | Gone(sent: bool)

  /** Where runToolCalls is: before scheduling call i, at its select, after it, collecting, or returned. */
  datatype Main = Check(i: nat) | Acquire(i: nat) | Recheck(i: nat) | Collecting | Returned(ok: bool)

  datatype Result = Result(index: nat, message: Message)

  datatype State = State(
    calls: seq<Call>, capacity: nat,   // capacity of the semaphore
    main: Main, ctxDone: bool,
    sem: nat, workers: seq<Worker>,
    results: seq<Result>,              // the buffered channel, of capacity |calls|
    received: nat,
    messages: seq<Option<Message>>,
    outcomes: seq<Option<Outcome>>)    // what each handler did

  datatype Action =
    | MainGo                       // the only way on, or the semaphore or result case of a select
    | MainCtx                      // the ctx.Done case of a select
    | WorkerGo(i: nat)
    | HandlerEnds(i: nat, o: Outcome)
    | CtxEnds

  predicate CallCtxDone(s: State) { s.ctxDone || s.main.Returned? }

  function Min(a: nat, b: nat): nat { if a < b then a else b }

  function Start(calls: seq<Call>, concurrency: nat): State {
    State(calls, Min(concurrency, |calls|), Check(0), false, 0, seq(|calls|, _ => Unstarted), [], 0,
          seq(|calls|, _ => None), seq(|calls|, _ => None))
  }

  predicate Shaped(s: State) {
    |s.workers| == |s.messages| == |s.outcomes| == |s.calls|
  }

  function StepMain(s: State, a: Action): (r: Option<State>)
    requires Shaped(s)
    ensures r.Some? ==> Shaped(r.value) && r.value.calls == s.calls && r.value.capacity == s.capacity
  {
    match s.main
    case Check(i) =>
      if a != MainGo then None
      else if i >= |s.calls| then Some(s.(main := Collecting))
      else if s.ctxDone then Some(s.(main := Returned(false)))
      else Some(s.(main := Acquire(i)))
    case Acquire(i) =>
      if a == MainCtx && s.ctxDone then Some(s.(main := Returned(false)))
      else if a == MainGo && s.sem < s.capacity then Some(s.(main := Recheck(i), sem := s.sem + 1))
      else None
    case Recheck(i) =>
      if a != MainGo || s.sem == 0 || i >= |s.calls| then None
      else if s.ctxDone then Some(s.(main := Returned(false), sem := s.sem - 1))
      else Some(s.(main := Check(i + 1), workers := s.workers[i := Spawned]))
    case Collecting =>
      if s.received >= |s.calls| then if a == MainGo then Some(s.(main := Returned(true))) else None
      else if a == MainCtx && s.ctxDone then Some(s.(main := Returned(false)))
      else if a == MainGo && s.results != [] && s.results[0].index < |s.calls| then
        var r := s.results[0];
        var rest := s.(results := s.results[1..], received := s.received + 1);
        if s.ctxDone then Some(rest.(main := Returned(false)))
        else Some(rest.(messages := s.messages[r.index := Some(r.message)]))
      else None
    case Returned(_) => None
  }

  function StepWorker(s: State, i: nat): (r: Option<State>)
    requires Shaped(s) && i < |s.calls|
    ensures r.Some? ==> Shaped(r.value) && r.value.calls == s.calls && r.value.capacity == s.capacity
  {
    match s.workers[i]
    case Unstarted => None
    case Spawned => Some(s.(workers := s.workers[i := if CallCtxDone(s) then Releasing(false) else Handling]))
    case Handling => None
    case Sending(o) =>
      if |s.results| >= |s.calls| then None   // a full channel would block the send
      else Some(s.(workers := s.workers[i := Releasing(true)],
                   results := s.results + [Result(i, ResultOf(s.calls[i], o))]))
    case Releasing(sent) =>
      if s.sem == 0 then None else Some(s.(workers := s.workers[i := Gone(sent)], sem := s.sem - 1))
    case Gone(_) => None
  }

  function Next(s: State, a: Action): (r: Option<State>)
    requires Shaped(s)
    ensures r.Some? ==> Shaped(r.value) && r.value.calls == s.calls && r.value.capacity == s.capacity
  {
    match a
    case MainGo => StepMain(s, a)
    case MainCtx => StepMain(s, a)
    case WorkerGo(i) => if i < |s.calls| then StepWorker(s, i) else None
    case HandlerEnds(i, o) =>
      if i < |s.calls| && s.workers[i].Handling?
      then Some(s.(workers := s.workers[i := Sending(o)], outcomes := s.outcomes[i := Some(o)])) else None
    case CtxEnds => Some(s.(ctxDone := true))
  }

  predicate Holds(w: Worker) { !w.Unstarted? && !w.Gone? }

  predicate HasSent(w: Worker) { (w.Releasing? || w.Gone?) && w.sent }

  predicate Running(w: Worker) { w.Handling? }

  predicate IsSet(m: Option<Message>) { m.Some? }

  // ---- The invariant ----

  ghost predicate Inv(s: State) {
    Shaped(s) && CountsInv(s) && WorkersInv(s) && QueueInv(s)
  }

  /** The semaphore counts the live goroutines; results are in the channel or received. */
  ghost predicate CountsInv(s: State) {
    && (|s.calls| > 0 ==> s.capacity > 0)
    && s.sem == Count(s.workers, Holds) + (if s.main.Recheck? then 1 else 0) <= s.capacity
    && |s.results| + s.received == Count(s.workers, HasSent)
    && (s.main != Returned(false) ==> s.received == Count(s.messages, IsSet))
    && (s.main.Check? ==> s.main.i <= |s.calls|) && (s.main.Acquire? || s.main.Recheck? ==> s.main.i < |s.calls|)
    && (s.main == Returned(true) ==> s.received == |s.calls|)
  }

  ghost predicate WorkersInv(s: State)
    requires Shaped(s)
  {
    forall i | 0 <= i < |s.calls| :: WorkerInv(s, i)
  }

  /** The channel holds the results of distinct calls not collected yet. */
  ghost predicate QueueInv(s: State)
    requires Shaped(s)
  {
    && (forall p | 0 <= p < |s.results| :: ResultInv(s, s.results[p]))
    && (forall p, q | 0 <= p < q < |s.results| :: s.results[p].index != s.results[q].index)
  }

  ghost predicate WorkerInv(s: State, i: nat)
    requires Shaped(s) && i < |s.calls|
  {
    var w := s.workers[i];
    && ((s.main.Check? || s.main.Acquire? || s.main.Recheck?) ==> (w.Unstarted? <==> i >= s.main.i))
    && ((s.main.Collecting? || s.main == Returned(true)) ==> !w.Unstarted?)
    && (w.Releasing? || w.Gone? ==> w.sent || CallCtxDone(s))
    && (w.Sending? ==> s.outcomes[i] == Some(w.outcome))
    && (HasSent(w) ==> s.outcomes[i].Some?)
    && (s.messages[i].Some? ==>
      HasSent(w) && s.outcomes[i].Some? && s.messages[i].value == ResultOf(s.calls[i], s.outcomes[i].value))
  }

  ghost predicate ResultInv(s: State, r: Result)
    requires Shaped(s)
  {
    && r.index < |s.calls| && HasSent(s.workers[r.index]) && s.messages[r.index].None?
    && s.outcomes[r.index].Some? && r.message == ResultOf(s.calls[r.index], s.outcomes[r.index].value)
  }

  lemma StartInv(calls: seq<Call>, concurrency: nat)
    requires concurrency > 0
    ensures Inv(Start(calls, concurrency))
  {
    var s := Start(calls, concurrency);
    CountNone(s.workers, Holds);
    CountNone(s.workers, HasSent);
    CountNone(s.messages, IsSet);
  }

  lemma SpawnKeepsInv(s: State, i: nat)
    requires Inv(s) && s.main == Recheck(i) && !s.ctxDone
    ensures Inv(s.(main := Check(i + 1), workers := s.workers[i := Spawned]))
  {
    assert WorkerInv(s, i);
    CountUpdate(s.workers, i, Spawned, Holds);
    CountUpdate(s.workers, i, Spawned, HasSent);
    var t := s.(main := Check(i + 1), workers := s.workers[i := Spawned]);
    forall j | 0 <= j < |t.calls| ensures WorkerInv(t, j) { assert WorkerInv(s, j); }
    forall p | 0 <= p < |t.results| ensures ResultInv(t, t.results[p]) { assert ResultInv(s, s.results[p]); }
  }

  lemma CollectKeepsInv(s: State)
    requires Inv(s) && s.main == Collecting && StepMain(s, MainGo).Some? && s.received < |s.calls|
    ensures Inv(StepMain(s, MainGo).value)
  {
    var t := StepMain(s, MainGo).value;
    var r := s.results[0];
    assert ResultInv(s, r) && WorkerInv(s, r.index);
    CountUpdate(s.messages, r.index, Some(r.message), IsSet);
    forall j | 0 <= j < |t.calls| ensures WorkerInv(t, j) { assert WorkerInv(s, j); }
    forall p | 0 <= p < |t.results| ensures ResultInv(t, t.results[p]) {
      assert t.results[p] == s.results[p + 1] && ResultInv(s, s.results[p + 1]);
    }
  }

  /** The dispatcher moves without starting a call or taking a result. */
  lemma MainMoves(s: State, a: Action)
    requires Inv(s) && StepMain(s, a).Some?
    requires !(s.main.Recheck? && !s.ctxDone)
    requires !(s.main.Collecting? && s.received < |s.calls| && a == MainGo)
    ensures Inv(StepMain(s, a).value)
  {
    var t := StepMain(s, a).value;
    forall j | 0 <= j < |t.calls| ensures WorkerInv(t, j) { assert WorkerInv(s, j); }
    forall p | 0 <= p < |t.results| ensures ResultInv(t, t.results[p]) { assert ResultInv(s, s.results[p]); }
  }

  lemma MainKeepsInv(s: State, a: Action)
    requires Inv(s) && StepMain(s, a).Some?
    ensures Inv(StepMain(s, a).value)
  {
    hide CountsInv, WorkerInv, ResultInv;
    if s.main.Recheck? && !s.ctxDone {
      SpawnKeepsInv(s, s.main.i);
    } else if s.main.Collecting? && s.received < |s.calls| && a == MainGo {
      CollectKeepsInv(s);
    } else {
      MainMoves(s, a);
    }
  }

  /** Worker i moves on to `w`: it may note its outcome, send its result, or release the semaphore. */
  ghost predicate WorkerMove(s: State, i: nat, w: Worker, t: State) {
    && Shaped(s) && i < |s.calls| && Holds(s.workers[i]) && !w.Unstarted? && (HasSent(s.workers[i]) ==> HasSent(w))
    && t == s.(workers := s.workers[i := w], sem := t.sem, results := t.results, outcomes := t.outcomes)
    && t.sem == s.sem - (if w.Gone? then 1 else 0)
    && (w.Releasing? || w.Gone? ==> w.sent || CallCtxDone(s))
    && (if w.Sending? then s.workers[i].Handling? && t.outcomes == s.outcomes[i := Some(w.outcome)]
      else t.outcomes == s.outcomes)
    && (if HasSent(w) && !HasSent(s.workers[i])
        then s.workers[i].Sending? && t.results == s.results + [Result(i, ResultOf(s.calls[i], s.workers[i].outcome))]
        else t.results == s.results)
  }

  lemma MoveKeepsCounts(s: State, i: nat, w: Worker, t: State)
    requires Inv(s) && WorkerMove(s, i, w, t)
    ensures Shaped(t) && CountsInv(t)
  {
    hide WorkersInv, QueueInv;
    CountUpdate(s.workers, i, w, Holds);
    CountUpdate(s.workers, i, w, HasSent);
  }

  lemma MoveKeepsWorkers(s: State, i: nat, w: Worker, t: State)
    requires Inv(s) && WorkerMove(s, i, w, t)
    ensures Shaped(t) && WorkersInv(t)
  {
    hide CountsInv, QueueInv;
    forall j | 0 <= j < |t.calls| ensures WorkerInv(t, j) {
      assert WorkerInv(s, i) && WorkerInv(s, j);
    }
  }

  lemma MoveKeepsQueue(s: State, i: nat, w: Worker, t: State)
    requires Inv(s) && WorkerMove(s, i, w, t)
    ensures Shaped(t) && QueueInv(t)
  {
    hide CountsInv;
    assert WorkerInv(s, i);
    forall p | 0 <= p < |t.results| ensures ResultInv(t, t.results[p]) {
      if p < |s.results| { assert ResultInv(s, s.results[p]); }
    }
    forall p, q | 0 <= p < q < |t.results| ensures t.results[p].index != t.results[q].index {
      if q == |s.results| { assert ResultInv(s, s.results[p]); }
    }
  }

  lemma WorkerKeepsInv(s: State, i: nat, w: Worker, t: State)
    requires Inv(s) && WorkerMove(s, i, w, t)
    ensures Inv(t)
  {
    MoveKeepsCounts(s, i, w, t);
    MoveKeepsWorkers(s, i, w, t);
    MoveKeepsQueue(s, i, w, t);
  }

  lemma WorkerStepMoves(s: State, i: nat)
    requires Inv(s) && i < |s.calls| && StepWorker(s, i).Some?
    ensures var t := StepWorker(s, i).value; WorkerMove(s, i, t.workers[i], t)
  {
    hide CountsInv, QueueInv;
    assert WorkerInv(s, i);
  }

  lemma CtxKeepsInv(s: State)
    requires Inv(s)
    ensures Inv(s.(ctxDone := true))
  {
    var t := s.(ctxDone := true);
    forall j | 0 <= j < |t.calls| ensures WorkerInv(t, j) { assert WorkerInv(s, j); }
    forall p | 0 <= p < |t.results| ensures ResultInv(t, t.results[p]) { assert ResultInv(s, s.results[p]); }
  }

  /** Every step of every goroutine keeps the invariant. */
  lemma NextKeepsInv(s: State, a: Action)
    requires Inv(s) && Next(s, a).Some?
    ensures Inv(Next(s, a).value)
  {
    hide CountsInv, WorkersInv, QueueInv, StepMain, StepWorker;
    var t := Next(s, a).value;
    match a
    case MainGo => MainKeepsInv(s, a);
    case MainCtx => MainKeepsInv(s, a);
    case WorkerGo(i) =>
      WorkerStepMoves(s, i);
      WorkerKeepsInv(s, i, t.workers[i], t);
    case HandlerEnds(i, o) => WorkerKeepsInv(s, i, t.workers[i], t);
    case CtxEnds => CtxKeepsInv(s);
  }

  function Execute(s: State, actions: seq<Action>): (t: Option<State>)
    requires Shaped(s)
    ensures t.Some? ==> Shaped(t.value) && t.value.calls == s.calls && t.value.capacity == s.capacity
    decreases |actions|
  {
    if actions == [] then Some(s)
    else match Next(s, actions[0])
      case None => None
      case Some(t) => Execute(t, actions[1..])
  }

  lemma {:induction false} ExecuteKeepsInv(s: State, actions: seq<Action>)
    requires Inv(s) && Execute(s, actions).Some?
    ensures Inv(Execute(s, actions).value)
    decreases |actions|
  {
    if actions != [] {
      NextKeepsInv(s, actions[0]);
      ExecuteKeepsInv(Next(s, actions[0]).value, actions[1..]);
    }
  }

  // ---- What holds on every run ----

  /** Never more than `concurrency` handlers are in flight. */
  lemma BoundedConcurrency(calls: seq<Call>, concurrency: nat, actions: seq<Action>)
    requires concurrency > 0 && Execute(Start(calls, concurrency), actions).Some?
    ensures Count(Execute(Start(calls, concurrency), actions).value.workers, Running) <= concurrency
  {
    StartInv(calls, concurrency);
    ExecuteKeepsInv(Start(calls, concurrency), actions);
    CountImplies(Execute(Start(calls, concurrency), actions).value.workers, Running, Holds);
  }

  /** A goroutine with a result to send always finds room in the channel, and one that ends can release the
      semaphore. */
  lemma SendsNeverBlock(s: State, i: nat)
    requires Inv(s) && i < |s.calls| && (s.workers[i].Spawned? || s.workers[i].Sending? || s.workers[i].Releasing?)
    ensures StepWorker(s, i).Some?
  {
    CountWitness(s.workers, HasSent);
    CountWitness(s.workers, Holds);
  }

  /** runToolCalls has returned and no goroutine of it is left. */
  predicate Finished(s: State) {
    s.main.Returned? && Count(s.workers, Holds) == 0
  }

  lemma WorkerCanStep(s: State, i: nat)
    requires Inv(s) && i < |s.calls| && Holds(s.workers[i])
    ensures exists a: Action :: (a.WorkerGo? || a.HandlerEnds?) && Next(s, a).Some?
  {
    if s.workers[i].Handling? {
      assert Next(s, HandlerEnds(i, Handled(""))).Some?;
    } else {
      SendsNeverBlock(s, i);
      assert Next(s, WorkerGo(i)).Some?;
    }
  }

  /** No reachable state is stuck, given that a handler that runs can return or panic: until everything has finished,
      some goroutine can go on even if the context never ends. */
  lemma NeverStuck(s: State)
    requires Inv(s) && !Finished(s)
    ensures exists a: Action :: a != CtxEnds && Next(s, a).Some?
  {
    CountWitness(s.workers, Holds);
    if i :| 0 <= i < |s.workers| && Holds(s.workers[i]) {
      WorkerCanStep(s, i);
    } else {
      assert Count(s.workers, Holds) == 0 && !s.main.Returned?;
      if s.main.Collecting? && s.received < |s.calls| && s.results == [] {
        CountWitness(s.workers, HasSent);
        var j :| 0 <= j < |s.workers| && !HasSent(s.workers[j]);
        assert WorkerInv(s, j) && s.ctxDone;
        assert Next(s, MainCtx).Some?;
      } else {
        assert s.results != [] ==> ResultInv(s, s.results[0]);
        assert Next(s, MainGo).Some?;
      }
    }
  }

  /** On success, message i tells how call i ended, whatever the order in which the handlers did. */
  lemma SuccessInCallOrder(s: State)
    requires Inv(s) && s.main == Returned(true)
    ensures AllTold(s)
  {
    CountWitness(s.messages, IsSet);
    forall i | 0 <= i < |s.calls|
      ensures s.outcomes[i].Some? && s.messages[i].Some? && Tells(s.messages[i].value, s.calls[i], s.outcomes[i].value)
    {
      assert IsSet(s.messages[i]);
      assert WorkerInv(s, i);
      ResultTells(s.calls[i], s.outcomes[i].value);
    }
  }

  predicate AllTold(s: State)
    requires Shaped(s)
  {
    forall i | 0 <= i < |s.calls| ::
      s.outcomes[i].Some? && s.messages[i].Some? && Tells(s.messages[i].value, s.calls[i], s.outcomes[i].value)
  }

  /** An outcome on record is one that the handler of that call had. */
  lemma {:induction false} OutcomesHappened(s: State, actions: seq<Action>, i: nat, o: Outcome)
    requires Shaped(s) && Execute(s, actions).Some? && i < |s.calls|
    requires Execute(s, actions).value.outcomes[i] == Some(o)
    ensures s.outcomes[i] == Some(o) || HandlerEnds(i, o) in actions
    decreases |actions|
  {
    if actions != [] {
      var t := Next(s, actions[0]).value;
      OutcomesHappened(t, actions[1..], i, o);
      OneStepOutcome(s, actions[0], i);
    }
  }

  lemma OneStepOutcome(s: State, a: Action, i: nat)
    requires Shaped(s) && Next(s, a).Some? && i < |s.calls|
    ensures var k := Next(s, a).value.outcomes[i];
      k == s.outcomes[i] || (a.HandlerEnds? && a.i == i && k == Some(a.o))
  {
  }

  /** Over every interleaving from the start: at most `concurrency` handlers run, the run can go on until all is
      finished, and a success tells for every call, in call order, how its handler ended. */
  lemma EveryRun(calls: seq<Call>, concurrency: nat, actions: seq<Action>)
    requires concurrency > 0 && Execute(Start(calls, concurrency), actions).Some?
    ensures var t := Execute(Start(calls, concurrency), actions).value;
      && Count(t.workers, Running) <= concurrency
      && (!Finished(t) ==> exists a: Action :: a != CtxEnds && Next(t, a).Some?)
      && t.calls == calls
      && (t.main == Returned(true) ==> forall i | 0 <= i < |calls| :: EndedAs(t.messages[i], calls[i], i, actions))
  {
    hide Inv, Start, Next, Execute, Count, Tells;
    BoundedConcurrency(calls, concurrency, actions);
    StartInv(calls, concurrency);
    NoOutcomeYet(calls, concurrency);
    ExecuteKeepsInv(Start(calls, concurrency), actions);
    var t := Execute(Start(calls, concurrency), actions).value;
    if !Finished(t) { NeverStuck(t); }
    if t.main == Returned(true) {
      SuccessInCallOrder(t);
      forall i | 0 <= i < |calls| ensures EndedAs(t.messages[i], calls[i], i, actions) {
        OutcomesHappened(Start(calls, concurrency), actions, i, t.outcomes[i].value);
      }
    }
  }

  /** The handler of call i has ended in the run, and `m` tells how. */
  predicate EndedAs(m: Option<Message>, call: Call, i: nat, actions: seq<Action>) {
    m.Some? && exists k :: 0 <= k < |actions| && EndedAt(m.value, call, i, actions[k])
  }

  predicate EndedAt(m: Message, call: Call, i: nat, a: Action) {
    a.HandlerEnds? && a.i == i && Tells(m, call, a.o)
  }

  lemma NoOutcomeYet(calls: seq<Call>, concurrency: nat)
    ensures Shaped(Start(calls, concurrency)) && Start(calls, concurrency).calls == calls
    ensures forall i | 0 <= i < |calls| :: Start(calls, concurrency).outcomes[i].None?
  {
  }

  /** An error is returned only when the context ended. */
  lemma FailureNeedsCtx(s: State, a: Action)
    requires Inv(s) && Next(s, a).Some? && !s.main.Returned? && Next(s, a).value.main == Returned(false)
    ensures s.ctxDone
  {
  }
}

/** The agent loop around it (runtools.go, RunTools). */
module ToolLoop {
  import opened Options
  import opened ToolPool

  datatype Turn =
    | Given(text: string)                                             // a message of the caller
    | Assistant(content: string, calls: seq<Call>, reasoning: string)
    | Tool(message: Message)

  datatype Response = Response(content: string, calls: seq<Call>, reasoning: string)

  /** What GenerateContent, and the check of the context before it, give at one iteration. */
  datatype Reply = ContextDone | ProviderError | NilResponse | Answer(resp: Response)

  /** What runToolCalls gives: its error is the context's. */
  datatype ToolReply = ToolError | Messages(messages: seq<Message>)

  datatype Exit = Finished | MaxIterations | Error

  /** One assistant turn and the results after it. */
  datatype Round = Round(resp: Response, results: seq<Message>)

  function RoundTurns(r: Round): seq<Turn> {
    [Assistant(r.resp.content, r.resp.calls, r.resp.reasoning)]
      + seq(|r.results|, i requires 0 <= i < |r.results| => Tool(r.results[i]))
  }

  function Flatten(rounds: seq<Round>): seq<Turn> {
    if rounds == [] then [] else Flatten(rounds[..|rounds| - 1]) + RoundTurns(rounds[|rounds| - 1])
  }

  /** Every call of the turn is answered at once, in call order. */
  predicate Answered(r: Round) {
    && |r.results| == |r.resp.calls|
    && forall i | 0 <= i < |r.results| :: r.results[i].callID == r.resp.calls[i].id
  }

  predicate Answers(calls: seq<Call>, reply: ToolReply) {
    reply.Messages? ==> Answered(Round(Response("", calls, ""), reply.messages))
  }

  /** A successful runToolCalls answers its calls: the messages it returns are those of SuccessInCallOrder. */
  lemma SuccessAnswers(s: State)
    requires Inv(s) && s.main == Returned(true)
    ensures forall i | 0 <= i < |s.calls| :: s.messages[i].Some?
    ensures Answers(s.calls, Messages(seq(|s.calls|, i requires 0 <= i < |s.calls| =>
              if s.messages[i].Some? then s.messages[i].value else Message("", "", ""))))
  {
    SuccessInCallOrder(s);
  }

  /** Where round k stands in a transcript: the model's turn with its content, calls and reasoning, and right after it
      the tool messages of the round. */
  lemma {:induction false} RoundAt(rounds: seq<Round>, k: nat)
    requires k < |rounds|
    ensures var all, at := Flatten(rounds), |Flatten(rounds[..k])|;
      var r := rounds[k];
      && |Flatten(rounds[..k + 1])| == at + 1 + |r.results| <= |all|
      && all[at] == Assistant(r.resp.content, r.resp.calls, r.resp.reasoning)
      && forall i | 0 <= i < |r.results| :: all[at + 1 + i] == Tool(r.results[i])
    decreases |rounds|
  {
    hide Flatten, RoundTurns;
    var last := |rounds| - 1;
    var front := rounds[..last];
    assert front + [rounds[last]] == rounds == rounds[..last + 1];
    FlattenAppend(front, rounds[last]);
    RoundIs(rounds[last]);
    if k < last {
      assert front[..k] == rounds[..k] && front[..k + 1] == rounds[..k + 1];
      RoundAt(front, k);
    }
  }

  lemma FlattenAppend(rounds: seq<Round>, r: Round)
    ensures Flatten(rounds + [r]) == Flatten(rounds) + RoundTurns(r)
  {
    assert (rounds + [r])[..|rounds|] == rounds;
  }

  /** What the caller of the loop sees of its environment: `model(k, transcript)` is what iteration k gives, and
      `tools(k, calls)` what running its calls gives. */
  type Model = (nat, seq<Turn>) -> Reply
  type Tools = (nat, seq<Call>) -> ToolReply

  /** Round k is the model's reply to the transcript before it, with the tools' replies to its calls. */
  ghost predicate RoundIsReply(messages: seq<Turn>, rounds: seq<Round>, k: nat, model: Model, tools: Tools)
    requires k < |rounds|
  {
    && model(k, messages + Flatten(rounds[..k])) == Answer(rounds[k].resp)
    && (rounds[k].resp.calls == [] ==> rounds[k].results == [])
    && (rounds[k].resp.calls != [] && tools(k, rounds[k].resp.calls).Messages? ==>
          tools(k, rounds[k].resp.calls) == Messages(rounds[k].results))
    && (rounds[k].resp.calls != [] && tools(k, rounds[k].resp.calls).ToolError? ==> rounds[k].results == [])
  }

  ghost predicate RoundsAreReplies(messages: seq<Turn>, rounds: seq<Round>, model: Model, tools: Tools) {
    forall k | 0 <= k < |rounds| :: RoundIsReply(messages, rounds, k, model, tools)
  }

  /** Round k asked for tools, and they replied: the loop goes on after it. */
  ghost predicate GoesOn(rounds: seq<Round>, k: nat, tools: Tools)
    requires k < |rounds|
  {
    rounds[k].resp.calls != [] && tools(k, rounds[k].resp.calls).Messages?
  }

  /** Why the loop ends after `rounds`: the last one asked for no tools; no iteration is left after rounds that all
      went on; or tools failed, or the next iteration gave no answer. At most one of these is the case. */
  ghost predicate Ends(exit: Exit, messages: seq<Turn>, maxIterations: nat, rounds: seq<Round>, model: Model,
                       tools: Tools) {
    var n := |rounds|;
    match exit
    case Finished => n > 0 && rounds[n - 1].resp.calls == []
    case MaxIterations => n == maxIterations && (n > 0 ==> GoesOn(rounds, n - 1, tools))
    case Error =>
      || (n > 0 && rounds[n - 1].resp.calls != [] && tools(n - 1, rounds[n - 1].resp.calls).ToolError?)
      || (n < maxIterations && (n > 0 ==> GoesOn(rounds, n - 1, tools))
        && !model(n, messages + Flatten(rounds)).Answer?)
  }

  /** RunTools. The transcript is the caller's messages followed by rounds: each the model's answer to the transcript
      so far and the tools' results in call order. Only the last round can be without results, and the loop ends for
      the one reason that applies: the model asked for no tools, tools failed, an iteration gave no answer, or none
      was left. */
  method RunTools(messages: seq<Turn>, maxIterations: nat, model: Model, tools: Tools)
    returns (transcript: seq<Turn>, exit: Exit, last: Option<Response>, ghost rounds: seq<Round>)
    requires forall k, calls :: Answers(calls, tools(k, calls))
    ensures transcript == messages + Flatten(rounds) && |rounds| <= maxIterations
    ensures RoundsAreReplies(messages, rounds, model, tools)
    ensures forall k | 0 <= k < |rounds| - 1 :: GoesOn(rounds, k, tools)
    ensures forall k | 0 <= k < |rounds| && (k < |rounds| - 1 || exit != Error) :: Answered(rounds[k])
    ensures Ends(exit, messages, maxIterations, rounds, model, tools)
    ensures messages <= transcript
    ensures exit == Finished <==> last.Some? && last.value.calls == []
    ensures last.Some? ==> rounds != [] && last.value == rounds[|rounds| - 1].resp
    ensures last.None? && rounds != [] ==> exit == Error && model(|rounds|, transcript).NilResponse?
    ensures var n := |rounds|;
      n > 0 && GoesOn(rounds, n - 1, tools) && n < maxIterations && model(n, transcript).NilResponse? ==> last.None?
  {
    hide Flatten, RoundTurns, RoundIsReply, RoundsAreReplies, Answered, Answers;
    transcript, rounds, last := messages, [], None;
    NoRounds(messages, model, tools);
    for iteration := 0 to maxIterations
      invariant transcript == messages + Flatten(rounds) && |rounds| == iteration
      invariant RoundsAreReplies(messages, rounds, model, tools)
      invariant forall k | 0 <= k < |rounds| :: GoesOn(rounds, k, tools) && Answered(rounds[k])
      invariant last == if rounds == [] then None else Some(rounds[|rounds| - 1].resp)
    {
      var reply := model(iteration, transcript);
      if reply.ContextDone? || reply.ProviderError? { return transcript, Error, last, rounds; }
      if reply.NilResponse? { return transcript, Error, None, rounds; }
      var resp := reply.resp;
      last := Some(resp);
      ghost var unanswered := Round(resp, []);
      FlattenAppend(rounds, unanswered);
      RoundIs(unanswered);
      transcript := transcript + [Assistant(resp.content, resp.calls, resp.reasoning)];
      if |resp.calls| == 0 {
        OneMoreReply(messages, rounds, unanswered, model, tools);
        return transcript, Finished, last, rounds + [unanswered];
      }
      var toolReply := tools(iteration, resp.calls);
      if toolReply.ToolError? {
        OneMoreReply(messages, rounds, unanswered, model, tools);
        return transcript, Error, last, rounds + [unanswered];
      }
      var results := toolReply.messages;
      ghost var round := Round(resp, results);
      RepliesAnswer(resp, toolReply);
      FlattenAppend(rounds, round);
      RoundIs(round);
      OneMoreReply(messages, rounds, round, model, tools);
      transcript := transcript + seq(|results|, i requires 0 <= i < |results| => Tool(results[i]));
      rounds := rounds + [round];
    }
    return transcript, MaxIterations, last, rounds;
  }

  lemma NoRounds(messages: seq<Turn>, model: Model, tools: Tools)
    ensures messages == messages + Flatten([]) && RoundsAreReplies(messages, [], model, tools)
  {
  }

  lemma RoundIs(r: Round)
    ensures RoundTurns(r) == [Assistant(r.resp.content, r.resp.calls, r.resp.reasoning)] +
      seq(|r.results|, i requires 0 <= i < |r.results| => Tool(r.results[i]))
    ensures r.results == [] ==> RoundTurns(r) == [Assistant(r.resp.content, r.resp.calls, r.resp.reasoning)]
    ensures r.resp.calls == [] && r.results == [] ==> Answered(r)
  {
  }

  lemma RepliesAnswer(resp: Response, reply: ToolReply)
    requires reply.Messages? && Answers(resp.calls, reply)
    ensures Answered(Round(resp, reply.messages))
  {
  }

  lemma {:induction false} OneMoreReply(messages: seq<Turn>, rounds: seq<Round>, r: Round, model: Model, tools: Tools)
    requires RoundsAreReplies(messages, rounds, model, tools)
    requires model(|rounds|, messages + Flatten(rounds)) == Answer(r.resp)
    requires if r.resp.calls == [] || tools(|rounds|, r.resp.calls).ToolError? then r.results == []
             else tools(|rounds|, r.resp.calls) == Messages(r.results)
    ensures RoundsAreReplies(messages, rounds + [r], model, tools)
  {
    var longer := rounds + [r];
    assert longer[..|rounds|] == rounds;
    forall k | 0 <= k < |longer| ensures RoundIsReply(messages, longer, k, model, tools) {
      if k < |rounds| {
        assert RoundIsReply(messages, rounds, k, model, tools);
        assert longer[..k] == rounds[..k];
      }
    }
  }
}

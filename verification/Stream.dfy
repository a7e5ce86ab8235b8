/** One layer of the stream wrapping protocol (streaming.go): the goroutine of WrapStream or
    WrapStreamWithFinalizer with its StreamSender, as a step machine between two channels. */
module StreamLayer {
  import opened Options

  datatype Err = Canceled | DeadlineExceeded | StreamTimeout | Other(n: int)

  datatype Chunk = Chunk(payload: int, done: bool, error: Option<Err>)

  predicate Terminal(c: Chunk) { c.done || c.error.Some? }

  /** A processor closure may keep state: its result depends on all chunks it was given before. */
  type Processor = (seq<Chunk>, Chunk) -> Chunk

  ghost predicate KeepsTerminality(p: Processor) {
    forall h, c :: Terminal(p(h, c)) <==> Terminal(c)
  }

  ghost predicate KeepsErrors(p: Processor) {
    forall h, c: Chunk :: c.error.Some? ==> p(h, c).error.Some?
  }

  /** A channel by its history: all chunks ever sent, how many were received, and whether it is closed. */
  datatype Channel = Channel(sent: seq<Chunk>, taken: nat, closed: bool)

  predicate Ready(ch: Channel) { ch.taken < |ch.sent| }

  predicate Drained(ch: Channel) { ch.closed && ch.taken == |ch.sent| }

  datatype SendResult = SendContextCanceled | SendTimeout

  /** Where the goroutine is. `owed` tells the terminal of a failed Send from that of the deferred helper. */
  datatype Pc =
    | Receive | ReceiveWait | ReceiveRecheck
    | Sending(c: Chunk) | SendWait(c: Chunk)
    | Forward(r: SendResult)
    | Deliver(c: Chunk, owed: bool) | DeliverWait(c: Chunk, owed: bool)
    | Ensure | Finalize | Closing | Exited

  datatype Layer = Layer(
    proc: Processor, cap: nat,
    ctx: Option<Err>,             // ctx.Err()
    pc: Pc, timedOut: bool, terminalSent: bool, draining: bool,
    nRead: nat,                   // chunks received by the loop
    fed: seq<Chunk>,              // everything the processor was given
    failed: bool,                 // a Send did not succeed
    synth: Option<Chunk>,         // the terminal the layer made itself, once accepted
    lostError: bool,              // a terminal carrying an error was not accepted in time
    gaveUp: bool,                 // the deferred helper's delivery timed out
    finalized: nat)

  /** The choices of a select: a receive or send, a done context, an expired timer; or the only way on. */
  datatype Action = Go | Take | Push | CtxWins | TimerFires

  datatype Wire = Wire(layer: Layer, input: Channel, output: Channel)

  predicate Room(w: Wire) { |w.output.sent| < w.output.taken + w.layer.cap }

  function Normal(c: Chunk): Chunk {
    if c.error.None? && !c.done then c.(done := true) else c
  }

  /** Receiving one chunk and running it through the processor. */
  function Received(w: Wire): Wire
    requires Ready(w.input)
  {
    var c := w.input.sent[w.input.taken];
    w.(input := w.input.(taken := w.input.taken + 1),
       layer := w.layer.(nRead := w.layer.nRead + 1, fed := w.layer.fed + [c],
                         pc := Sending(w.layer.proc(w.layer.fed, c))))
  }

  function Accepted(w: Wire, c: Chunk, next: Layer): Wire {
    Wire(next, w.input, w.output.(sent := w.output.sent + [c]))
  }

  function SendFailed(w: Wire, r: SendResult): Wire {
    w.(layer := w.layer.(pc := Forward(r), draining := true, failed := true,
                                 timedOut := w.layer.timedOut || r.SendTimeout?))
  }

  /** terminalChunkFor: the chunk a failed Send owes. */
  function TerminalFor(ctx: Option<Err>, r: SendResult): Chunk {
    match r
    case SendContextCanceled => Chunk(0, false, Some(if ctx.Some? then ctx.value else Canceled))
    case SendTimeout => Chunk(0, false, Some(StreamTimeout))
  }

  /** The chunk of ensureTerminalThroughProcessor. */
  function EnsureChunk(ctx: Option<Err>): Chunk {
    if ctx.Some? then Chunk(0, false, ctx) else Chunk(0, true, None)
  }

  /** A terminal chunk goes through the processor, then into DeliverTerminal. */
  function StartDelivery(w: Wire, raw: Chunk, owed: bool): Wire {
    var c := Normal(w.layer.proc(w.layer.fed, raw));
    var fed := w.layer.fed + [raw];
    if w.layer.terminalSent then w.(layer := w.layer.(fed := fed, pc := if owed then Ensure else Finalize))
    else w.(layer := w.layer.(fed := fed, terminalSent := true, pc := Deliver(c, owed)))
  }

  function Delivered(w: Wire, c: Chunk, owed: bool): Wire {
    Accepted(w, c, w.layer.(synth := Some(c), pc := if owed then Ensure else Finalize))
  }

  /** A delivery that timed out re-arms the guard. */
  function Abandoned(w: Wire, c: Chunk, owed: bool): Wire {
    w.(layer := w.layer.(terminalSent := false, lostError := w.layer.lostError || c.error.Some?, gaveUp := !owed,
                         pc := if owed then Ensure else Finalize))
  }

  function Sent(w: Wire, c: Chunk): Wire {
    Accepted(w, c, w.layer.(terminalSent := w.layer.terminalSent || Terminal(c), pc := Receive))
  }

  function TakeOne(ch: Channel): Channel {
    ch.(taken := ch.taken + 1)
  }

  /** A step leaves the context alone, receives at most one chunk of the input and only extends the output. */
  ghost predicate Effect(w: Wire, r: Option<Wire>) {
    r.Some? ==>
      && r.value.layer.ctx == w.layer.ctx
      && (r.value.input == w.input || (Ready(w.input) && r.value.input == TakeOne(w.input)))
      && r.value.output.taken == w.output.taken && w.output.sent <= r.value.output.sent
      && !w.layer.pc.Exited?
  }

  /** receiveStreamChunk: a ready chunk is preferred to cancellation, and looked for again after it. */
  function StepReceive(w: Wire, a: Action): (r: Option<Wire>)
    requires w.layer.pc.Receive? || w.layer.pc.ReceiveWait? || w.layer.pc.ReceiveRecheck?
    ensures Effect(w, r)
  {
    var l := w.layer;
    if l.pc.ReceiveWait? then
      if a == Take && Ready(w.input) then Some(Received(w))
      else if a == Take && Drained(w.input) then Some(w.(layer := l.(pc := Ensure)))
      else if a == CtxWins && l.ctx.Some? then Some(w.(layer := l.(pc := ReceiveRecheck)))
      else None
    else if a != Go then None
    else if Ready(w.input) then Some(Received(w))
    else if Drained(w.input) then Some(w.(layer := l.(pc := Ensure)))
    else if l.pc.Receive? then Some(w.(layer := l.(pc := ReceiveWait)))
    else Some(w.(layer := l.(pc := Ensure, draining := true)))
  }

  /** StreamSender.Send, and the drain of the source when it does not succeed. */
  function StepSend(w: Wire, a: Action): (r: Option<Wire>)
    requires w.layer.pc.Sending? || w.layer.pc.SendWait?
    ensures Effect(w, r)
  {
    var l := w.layer;
    match l.pc
    case Sending(c) =>
      if a != Go then None
      else if l.timedOut then Some(SendFailed(w, SendTimeout))
      else if l.ctx.Some? then Some(SendFailed(w, SendContextCanceled))
      else if Room(w) then Some(Sent(w, c))
      else Some(w.(layer := l.(pc := SendWait(c))))
    case SendWait(c) =>
      if a == Push && Room(w) then Some(Sent(w, c))
      else if a == CtxWins && l.ctx.Some? then Some(SendFailed(w, SendContextCanceled))
      else if a == TimerFires then Some(SendFailed(w, SendTimeout))
      else None
  }

  /** StreamSender.DeliverTerminal after its guard is taken. */
  function StepDeliver(w: Wire, a: Action): (r: Option<Wire>)
    requires w.layer.pc.Deliver? || w.layer.pc.DeliverWait?
    ensures Effect(w, r)
  {
    var l := w.layer;
    match l.pc
    case Deliver(c, owed) =>
      if a != Go then None
      else if Room(w) then Some(Delivered(w, c, owed))
      else Some(w.(layer := l.(pc := DeliverWait(c, owed))))
    case DeliverWait(c, owed) =>
      if a == Push && Room(w) then Some(Delivered(w, c, owed))
      else if a == TimerFires then
        Some(Abandoned(w, c, owed))
      else None
  }

  /** One step of the goroutine, or None when `a` is not possible. The deferred calls run in the order
      terminal, finalizer, close. */
  function Step(w: Wire, a: Action): (r: Option<Wire>)
    ensures Effect(w, r)
  {
    var l := w.layer;
    match l.pc
    case Receive => StepReceive(w, a)
    case ReceiveWait => StepReceive(w, a)
    case ReceiveRecheck => StepReceive(w, a)
    case Sending(_) => StepSend(w, a)
    case SendWait(_) => StepSend(w, a)
    case Forward(r) =>
      if a == Go then Some(StartDelivery(w, TerminalFor(l.ctx, r), true)) else None
    case Deliver(_, _) => StepDeliver(w, a)
    case DeliverWait(_, _) => StepDeliver(w, a)
    case Ensure =>
      if a != Go then None
      else if l.terminalSent then Some(w.(layer := l.(pc := Finalize)))
      else Some(StartDelivery(w, EnsureChunk(l.ctx), false))
    case Finalize =>
      if a == Go then Some(w.(layer := l.(finalized := l.finalized + 1, pc := Closing))) else None
    case Closing =>
      if a == Go then Some(w.(layer := l.(pc := Exited), output := w.output.(closed := true))) else None
    case Exited => None
  }

  // ---- What a layer does to its input ----

  /** Non-terminal chunks, then at most one terminal with nothing after it. */
  predicate WellFormed(h: seq<Chunk>) {
    forall i | 0 <= i < |h| - 1 :: !Terminal(h[i])
  }

  predicate EndsTerminal(h: seq<Chunk>) {
    |h| > 0 && Terminal(h[|h| - 1])
  }

  predicate EndsClean(h: seq<Chunk>) {
    EndsTerminal(h) && h[|h| - 1].error.None?
  }

  /** The processor applied to a whole history. */
  function Run(p: Processor, h: seq<Chunk>): (r: seq<Chunk>) {
    seq(|h|, i requires 0 <= i < |h| => p(h[..i], h[i]))
  }

  lemma RunNext(p: Processor, h: seq<Chunk>, k: nat)
    requires k < |h|
    ensures Run(p, h[..k + 1]) == Run(p, h[..k]) + [p(h[..k], h[k])]
  {
    assert forall i | 0 <= i < k :: h[..k + 1][..i] == h[..k][..i];
    assert h[..k + 1][..k] == h[..k];
  }

  lemma RunPrefix(p: Processor, h: seq<Chunk>, k: nat)
    requires k <= |h|
    ensures Run(p, h[..k]) == Run(p, h)[..k]
  {
    assert forall i | 0 <= i < k :: h[..k][..i] == h[..i];
  }

  /** How many input chunks have been forwarded: all that were read, but for one in hand or one whose Send failed. */
  function Forwarded(l: Layer): nat {
    if (l.failed || l.pc.Sending? || l.pc.SendWait?) && l.nRead > 0 then l.nRead - 1 else l.nRead
  }

  /** The layer has read its source to the end: to its terminal, or to its close without one. */
  predicate ReadAll(l: Layer, input: Channel) {
    l.nRead == |input.sent| && (input.closed || EndsTerminal(input.sent))
  }

  function Tail(l: Layer): seq<Chunk> {
    if l.synth.Some? then [l.synth.value] else []
  }

  /** The goroutine has not stopped reading its source. */
  predicate InLoop(pc: Pc) {
    pc.Receive? || pc.ReceiveWait? || pc.ReceiveRecheck? || pc.Sending? || pc.SendWait?
  }

  /** What a layer has read and sent. */
  ghost predicate FlowInv(w: Wire) {
    var l := w.layer;
    && 1 <= l.cap && w.output.taken <= |w.output.sent| <= w.output.taken + l.cap
    && l.nRead <= w.input.taken <= |w.input.sent| && (!l.draining ==> l.nRead == w.input.taken)
    && WellFormed(w.input.sent) && KeepsTerminality(l.proc)
    && l.nRead <= |l.fed| && l.fed[..l.nRead] == w.input.sent[..l.nRead]
    && (l.failed || l.pc.Sending? || l.pc.SendWait? ==> l.nRead > 0)
    && w.output.sent == Run(l.proc, w.input.sent[..Forwarded(l)]) + Tail(l)
    && (l.synth.Some? ==> Terminal(l.synth.value) && !EndsTerminal(Run(l.proc, w.input.sent[..Forwarded(l)])))
    && (w.output.closed <==> l.pc.Exited?)
    && l.finalized == (if l.pc.Closing? || l.pc.Exited? then 1 else 0)
    && (l.gaveUp ==> l.pc.Finalize? || l.pc.Closing? || l.pc.Exited?)
    && (InLoop(l.pc) || l.draining || Drained(w.input))
    && PhaseInv(w)
  }

  ghost predicate PhaseInv(w: Wire) {
    var l := w.layer;
    var out := w.output.sent;
    match l.pc
    case Receive => Looping(w)
    case ReceiveWait => Looping(w)
    case ReceiveRecheck => Looping(w) && l.ctx.Some?
    case Sending(c) => InHand(w, c)
    case SendWait(c) => InHand(w, c)
    case Forward(_) => l.failed && l.synth.None? && !l.terminalSent && !l.lostError && !EndsTerminal(out)
    case Deliver(c, owed) => Delivering(w, c, owed)
    case DeliverWait(c, owed) => Delivering(w, c, owed)
    case Ensure =>
      && (l.terminalSent <==> EndsTerminal(out))
      && (!l.failed ==> l.synth.None? && !l.lostError && (ReadAll(l, w.input) || l.ctx.Some?))
      && (l.failed && !l.terminalSent ==> l.synth.None?)
      && (l.failed && KeepsErrors(l.proc) ==> l.lostError != l.terminalSent)
      && (l.failed && KeepsErrors(l.proc) && l.terminalSent ==> !EndsClean(out))
    case Finalize => Settled(w)
    case Closing => Settled(w)
    case Exited => Settled(w)
  }

  ghost predicate Looping(w: Wire) {
    var l := w.layer;
    && !l.failed && !l.timedOut && !l.draining && !l.lostError && l.synth.None?
    && l.nRead <= |w.input.sent| && l.fed == w.input.sent[..l.nRead]
    && (l.terminalSent <==> EndsTerminal(w.output.sent))
  }

  ghost predicate InHand(w: Wire, c: Chunk) {
    var l := w.layer;
    && !l.failed && !l.timedOut && !l.draining && !l.lostError && l.synth.None?
    && 0 < l.nRead <= |w.input.sent| && l.fed == w.input.sent[..l.nRead]
    && c == l.proc(w.input.sent[..l.nRead - 1], w.input.sent[l.nRead - 1])
    && !l.terminalSent && !EndsTerminal(w.output.sent)
  }

  ghost predicate Delivering(w: Wire, c: Chunk, owed: bool) {
    var l := w.layer;
    && Terminal(c) && l.synth.None? && l.terminalSent && !EndsTerminal(w.output.sent)
    && (owed ==> l.failed && !l.lostError)
    && (!owed && !l.failed ==> !l.lostError)
    && (KeepsErrors(l.proc) ==>
          && (owed ==> c.error.Some?)
          && (!owed && !l.failed && c.error.None? ==> ReadAll(l, w.input))
          && (!owed && l.failed ==> l.lostError))
  }

  /** The terminal attempt is over: a terminal was sent exactly if the last delivery did not time out. Without a lost
      error, an output that does not end in an error says the whole input was forwarded. */
  ghost predicate Settled(w: Wire) {
    var l := w.layer;
    var out := w.output.sent;
    && (EndsTerminal(out) <==> !l.gaveUp)
    && (KeepsErrors(l.proc) ==>
          && ((EndsClean(out) || !EndsTerminal(out)) && !l.lostError ==> !l.failed && ReadAll(l, w.input))
          && (EndsClean(out) && l.lostError ==> l.failed))
  }

  // ---- The invariant holds on every step ----

  ghost predicate Initial(l: Layer) {
    && 1 <= l.cap && l.pc == Receive && !l.timedOut && !l.terminalSent && !l.draining && l.nRead == 0 && l.fed == []
    && !l.failed && l.synth.None? && !l.lostError && !l.gaveUp && l.finalized == 0 && KeepsTerminality(l.proc)
  }

  /** The forwarded chunks hold a terminal only if it is the last chunk of the input. */
  lemma ForwardedWellFormed(p: Processor, h: seq<Chunk>, k: nat)
    requires KeepsTerminality(p) && WellFormed(h) && k <= |h|
    ensures WellFormed(Run(p, h[..k]))
    ensures EndsTerminal(Run(p, h[..k])) ==> k == |h| && EndsTerminal(h)
    ensures EndsTerminal(Run(p, h[..k])) <==> k > 0 && Terminal(h[k - 1])
    ensures KeepsErrors(p) && EndsClean(Run(p, h[..k])) ==> EndsClean(h)
  {
    forall i | 0 <= i < k ensures Run(p, h[..k])[i] == p(h[..i], h[i]) { assert h[..k][..i] == h[..i]; }
  }

  lemma ReceivedKeepsInv(w: Wire)
    requires FlowInv(w) && Looping(w) && Ready(w.input)
    requires (w.layer.pc.Receive? || w.layer.pc.ReceiveWait? || w.layer.pc.ReceiveRecheck?)
    ensures FlowInv(Received(w))
  {
    var l, h := w.layer, w.input.sent;
    ForwardedWellFormed(l.proc, h, l.nRead);
    assert h[..l.nRead] + [h[l.nRead]] == h[..l.nRead + 1];
  }

  lemma SentKeepsInv(w: Wire, c: Chunk)
    requires FlowInv(w) && InHand(w, c) && (w.layer.pc == Sending(c) || w.layer.pc == SendWait(c)) && Room(w)
    ensures FlowInv(Sent(w, c))
  {
    var l, h := w.layer, w.input.sent;
    RunNext(l.proc, h, l.nRead - 1);
  }

  lemma SendFailedKeepsInv(w: Wire, c: Chunk, r: SendResult)
    requires FlowInv(w) && InHand(w, c) && (w.layer.pc == Sending(c) || w.layer.pc == SendWait(c))
    ensures FlowInv(SendFailed(w, r))
  {
  }

  lemma ForwardKeepsInv(w: Wire, r: SendResult)
    requires FlowInv(w) && w.layer.pc == Forward(r)
    ensures FlowInv(StartDelivery(w, TerminalFor(w.layer.ctx, r), true))
  {
    var l := w.layer;
    var c := l.proc(l.fed, TerminalFor(l.ctx, r));
    assert Terminal(c);
    assert KeepsErrors(l.proc) ==> c.error.Some?;
    assert (l.fed + [TerminalFor(l.ctx, r)])[..l.nRead] == l.fed[..l.nRead];
  }

  lemma DeliveredKeepsInv(w: Wire, c: Chunk, owed: bool)
    requires FlowInv(w) && Room(w) && (w.layer.pc == Deliver(c, owed) || w.layer.pc == DeliverWait(c, owed))
    ensures FlowInv(Delivered(w, c, owed))
  {
    assert Delivering(w, c, owed);
    var out := w.output.sent;
    assert (out + [c])[|out + [c]| - 1] == c;
    assert Run(w.layer.proc, w.input.sent[..Forwarded(w.layer)]) + [c] == out + [c];
  }

  lemma EnsureDone(w: Wire)
    requires FlowInv(w) && w.layer.pc.Ensure? && w.layer.terminalSent
    ensures FlowInv(w.(layer := w.layer.(pc := Finalize)))
  {
    ForwardedWellFormed(w.layer.proc, w.input.sent, Forwarded(w.layer));
  }

  lemma EnsureStarts(w: Wire)
    requires FlowInv(w) && w.layer.pc.Ensure? && !w.layer.terminalSent
    ensures FlowInv(StartDelivery(w, EnsureChunk(w.layer.ctx), false))
  {
    var l := w.layer;
    var raw := EnsureChunk(l.ctx);
    var c := l.proc(l.fed, raw);
    assert Terminal(c);
    assert KeepsErrors(l.proc) ==> (raw.error.Some? ==> c.error.Some?);
    assert (l.fed + [raw])[..l.nRead] == l.fed[..l.nRead];
  }

  lemma ReceiveStep(w: Wire, a: Action)
    requires FlowInv(w) && Step(w, a).Some?
    requires (w.layer.pc.Receive? || w.layer.pc.ReceiveWait? || w.layer.pc.ReceiveRecheck?)
    ensures FlowInv(Step(w, a).value)
  {
    assert Looping(w);
    if Ready(w.input) && (w.layer.pc.ReceiveWait? ==> a == Take) { ReceivedKeepsInv(w); }
  }

  lemma SendStep(w: Wire, a: Action)
    requires FlowInv(w) && Step(w, a).Some? && (w.layer.pc.Sending? || w.layer.pc.SendWait?)
    ensures FlowInv(Step(w, a).value)
  {
    var c := w.layer.pc.c;
    assert InHand(w, c);
    SendFailedKeepsInv(w, c, SendContextCanceled);
    SendFailedKeepsInv(w, c, SendTimeout);
    if Room(w) { SentKeepsInv(w, c); }
  }

  lemma DeliverStep(w: Wire, a: Action)
    requires FlowInv(w) && Step(w, a).Some? && (w.layer.pc.Deliver? || w.layer.pc.DeliverWait?)
    ensures FlowInv(Step(w, a).value)
  {
    hide Run, EndsTerminal, WellFormed;
    var c, owed := w.layer.pc.c, w.layer.pc.owed;
    assert Delivering(w, c, owed);
    if Room(w) && (w.layer.pc.Deliver? || a == Push) { DeliveredKeepsInv(w, c, owed); }
  }

  lemma ClosingStep(w: Wire, a: Action)
    requires FlowInv(w) && Step(w, a).Some? && (w.layer.pc.Finalize? || w.layer.pc.Closing?)
    ensures FlowInv(Step(w, a).value)
  {
    hide Run, EndsTerminal, WellFormed;
  }

  lemma StepKeepsFlow(w: Wire, a: Action)
    requires FlowInv(w) && Step(w, a).Some?
    ensures FlowInv(Step(w, a).value)
  {
    hide FlowInv, Looping, InHand, Delivering, Settled, PhaseInv;
    match w.layer.pc
    case Receive => ReceiveStep(w, a);
    case ReceiveWait => ReceiveStep(w, a);
    case ReceiveRecheck => ReceiveStep(w, a);
    case Sending(_) => SendStep(w, a);
    case SendWait(_) => SendStep(w, a);
    case Forward(r) => ForwardKeepsInv(w, r);
    case Deliver(_, _) => DeliverStep(w, a);
    case DeliverWait(_, _) => DeliverStep(w, a);
    case Ensure => if w.layer.terminalSent { EnsureDone(w); } else { EnsureStarts(w); }
    case Finalize => ClosingStep(w, a);
    case Closing => ClosingStep(w, a);
  }

  // ---- Why a stream ends ----

  /** A reason for layer `l` to end its stream with error `e`: its context ended with it, or a Send timed out. */
  predicate HasCause(l: Layer, e: Err) {
    l.ctx == Some(e) || (e == StreamTimeout && l.timedOut)
  }

  /** A terminal chunk that layer `l` makes itself: a plain Done, or an error it has a reason for. */
  predicate OwnTerminal(l: Layer, c: Chunk) {
    c == Chunk(0, true, None) || (c.error.Some? && c == Chunk(0, false, c.error) && HasCause(l, c.error.value))
  }

  /** What the processor made of the last chunk it was given, which is one the layer made itself. */
  ghost predicate MadeLast(l: Layer, c: Chunk) {
    |l.fed| > l.nRead && c == l.proc(l.fed[..|l.fed| - 1], l.fed[|l.fed| - 1])
  }

  /** All that was fed to the processor beyond the input are terminals with a reason; the first one after a failed Send
      carries StreamTimeout if the Send timed out, and otherwise the context's error; and a terminal that the layer sent
      of itself is what the processor made of the last of them. */
  ghost predicate EndsForCause(l: Layer) {
    && l.nRead <= |l.fed| && (forall i | l.nRead <= i < |l.fed| :: OwnTerminal(l, l.fed[i]))
    && (l.failed && |l.fed| > l.nRead ==> l.fed[l.nRead].error == if l.timedOut then Some(StreamTimeout) else l.ctx)
    && (l.synth.Some? ==> MadeLast(l, l.synth.value))
  }

  ghost predicate CauseInv(l: Layer) {
    && EndsForCause(l)
    && (InLoop(l.pc) ==> !l.failed && |l.fed| == l.nRead && l.synth.None?)
    && (if l.timedOut then l.failed else l.failed ==> l.ctx.Some?)
    && (l.pc.Forward? ==> l.failed && |l.fed| == l.nRead && (l.pc.r.SendTimeout? <==> l.timedOut))
    && (l.failed && !l.pc.Forward? ==> |l.fed| > l.nRead)
    && (l.pc.Deliver? ==> MadeLast(l, l.pc.c)) && (l.pc.DeliverWait? ==> MadeLast(l, l.pc.c))
  }

  /** If `l` has made a terminal by the time it is `k`, it is the next chunk it fed to its processor: the one owed after
      a failed Send, or else the context's error if the context had ended, and a plain Done if it had not. */
  ghost predicate MadeForCause(l: Layer, k: Layer) {
    |k.fed| - k.nRead > |l.fed| - l.nRead ==>
      && k.nRead == l.nRead && |k.fed| == |l.fed| + 1 && l.fed <= k.fed
      && var c := k.fed[|l.fed|];
      if l.failed && |l.fed| == l.nRead then c == Chunk(0, false, if l.timedOut then Some(StreamTimeout) else l.ctx)
      else c == Chunk(0, l.ctx.None?, l.ctx)
  }

  lemma MadeIsSent(w: Wire)
    requires FlowInv(w)
    ensures w.layer.synth.Some? ==> EndsTerminal(w.output.sent)
  {
    hide Run, WellFormed, PhaseInv;
    if w.layer.synth.Some? { assert w.output.sent[|w.output.sent| - 1] == w.layer.synth.value; }
  }

  /** Before a terminal is made none has been sent. */
  lemma NoneMadeYet(w: Wire)
    requires FlowInv(w) && (w.layer.pc.Forward? || (w.layer.pc.Ensure? && !w.layer.terminalSent))
    ensures !w.layer.terminalSent && w.layer.synth.None? && KeepsTerminality(w.layer.proc)
  {
    hide Run, WellFormed, EndsTerminal;
    MadeIsSent(w);
  }

  lemma TerminalMade(l: Layer, raw: Chunk, k: Layer)
    requires CauseInv(l) && KeepsTerminality(l.proc) && Terminal(raw) && !l.terminalSent && l.synth.None?
    requires OwnTerminal(l, raw) && !InLoop(k.pc) && !k.pc.DeliverWait? && k.pc.Deliver?
    requires k == l.(fed := l.fed + [raw], terminalSent := true, pc := k.pc) && k.pc.c == Normal(l.proc(l.fed, raw))
    requires l.failed && |l.fed| == l.nRead ==> raw.error == if l.timedOut then Some(StreamTimeout) else l.ctx
    requires !InLoop(l.pc)
    ensures CauseInv(k)
  {
    assert Terminal(l.proc(l.fed, raw)) && k.fed[..|l.fed|] == l.fed && k.fed[|l.fed|] == raw;
    forall i | k.nRead <= i < |k.fed| ensures OwnTerminal(k, k.fed[i]) {
      if i < |l.fed| { assert OwnTerminal(l, l.fed[i]); }
    }
  }

  lemma ForwardHasCause(w: Wire, a: Action)
    requires FlowInv(w) && CauseInv(w.layer) && Step(w, a).Some? && w.layer.pc.Forward?
    ensures CauseInv(Step(w, a).value.layer) && MadeForCause(w.layer, Step(w, a).value.layer)
  {
    hide FlowInv;
    var l, k := w.layer, Step(w, a).value.layer;
    NoneMadeYet(w);
    TerminalMade(l, k.fed[|l.fed|], k);
  }

  /** A step outside the loop that makes no terminal. */
  lemma CauseStays(l: Layer, k: Layer)
    requires CauseInv(l) && !InLoop(l.pc) && !l.pc.Forward? && !InLoop(k.pc) && !k.pc.Forward?
    requires k.fed == l.fed && k.nRead == l.nRead && k.failed == l.failed && k.timedOut == l.timedOut
    requires k.ctx == l.ctx && k.proc == l.proc
    requires k.pc.Deliver? || k.pc.DeliverWait? ==> (l.pc.Deliver? || l.pc.DeliverWait?) && k.pc.c == l.pc.c
    requires k.synth == l.synth || ((l.pc.Deliver? || l.pc.DeliverWait?) && k.synth == Some(l.pc.c))
    ensures CauseInv(k) && MadeForCause(l, k)
  {
    forall i | k.nRead <= i < |k.fed| ensures OwnTerminal(k, k.fed[i]) { assert OwnTerminal(l, l.fed[i]); }
  }

  lemma EnsureHasCause(w: Wire, a: Action)
    requires FlowInv(w) && CauseInv(w.layer) && Step(w, a).Some? && w.layer.pc.Ensure?
    ensures CauseInv(Step(w, a).value.layer) && MadeForCause(w.layer, Step(w, a).value.layer)
  {
    hide FlowInv;
    var l, k := w.layer, Step(w, a).value.layer;
    if l.terminalSent {
      CauseStays(l, k);
    } else {
      NoneMadeYet(w);
      TerminalMade(l, k.fed[|l.fed|], k);
    }
  }

  lemma ReceiveHasCause(w: Wire, a: Action)
    requires CauseInv(w.layer) && Step(w, a).Some?
    requires w.layer.pc.Receive? || w.layer.pc.ReceiveWait? || w.layer.pc.ReceiveRecheck?
    ensures CauseInv(Step(w, a).value.layer) && MadeForCause(w.layer, Step(w, a).value.layer)
  {
    hide MadeLast;
  }

  lemma SendHasCause(w: Wire, a: Action)
    requires CauseInv(w.layer) && Step(w, a).Some? && (w.layer.pc.Sending? || w.layer.pc.SendWait?)
    ensures CauseInv(Step(w, a).value.layer) && MadeForCause(w.layer, Step(w, a).value.layer)
  {
    hide MadeLast;
  }

  lemma DeliveringSteps(w: Wire, a: Action)
    requires w.layer.pc.Deliver? || w.layer.pc.DeliverWait?
    ensures Step(w, a) == StepDeliver(w, a)
  {
    hide StepDeliver;
  }

  lemma DeliveryHasCause(w: Wire, c: Chunk, owed: bool)
    requires CauseInv(w.layer) && (w.layer.pc == Deliver(c, owed) || w.layer.pc == DeliverWait(c, owed))
    ensures CauseInv(Delivered(w, c, owed).layer) && MadeForCause(w.layer, Delivered(w, c, owed).layer)
    ensures CauseInv(Abandoned(w, c, owed).layer) && MadeForCause(w.layer, Abandoned(w, c, owed).layer)
    ensures var k := w.layer.(pc := DeliverWait(c, owed)); CauseInv(k) && MadeForCause(w.layer, k)
  {
    hide CauseInv, MadeForCause;
    CauseStays(w.layer, Delivered(w, c, owed).layer);
    CauseStays(w.layer, Abandoned(w, c, owed).layer);
    CauseStays(w.layer, w.layer.(pc := DeliverWait(c, owed)));
  }

  lemma DeliverHasCause(w: Wire, a: Action)
    requires CauseInv(w.layer) && Step(w, a).Some? && (w.layer.pc.Deliver? || w.layer.pc.DeliverWait?)
    ensures CauseInv(Step(w, a).value.layer) && MadeForCause(w.layer, Step(w, a).value.layer)
  {
    hide CauseInv, MadeForCause, Step, Delivered, Abandoned;
    DeliveringSteps(w, a);
    DeliveryHasCause(w, w.layer.pc.c, w.layer.pc.owed);
  }

  lemma ClosingHasCause(w: Wire, a: Action)
    requires CauseInv(w.layer) && Step(w, a).Some? && (w.layer.pc.Finalize? || w.layer.pc.Closing?)
    ensures CauseInv(Step(w, a).value.layer) && MadeForCause(w.layer, Step(w, a).value.layer)
  {
    hide CauseInv, MadeForCause;
    CauseStays(w.layer, Step(w, a).value.layer);
  }

  lemma StepHasCause(w: Wire, a: Action)
    requires Inv(w) && Step(w, a).Some?
    ensures CauseInv(Step(w, a).value.layer) && MadeForCause(w.layer, Step(w, a).value.layer)
  {
    hide FlowInv, CauseInv, Step, MadeForCause;
    match w.layer.pc
    case Forward(_) => ForwardHasCause(w, a);
    case Ensure => EnsureHasCause(w, a);
    case Receive => ReceiveHasCause(w, a);
    case ReceiveWait => ReceiveHasCause(w, a);
    case ReceiveRecheck => ReceiveHasCause(w, a);
    case Sending(_) => SendHasCause(w, a);
    case SendWait(_) => SendHasCause(w, a);
    case Deliver(_, _) => DeliverHasCause(w, a);
    case DeliverWait(_, _) => DeliverHasCause(w, a);
    case Finalize => ClosingHasCause(w, a);
    case Closing => ClosingHasCause(w, a);
  }

  /** The layer invariant. */
  ghost predicate Inv(w: Wire) {
    FlowInv(w) && CauseInv(w.layer)
  }

  /** Every step of the goroutine keeps the layer invariant. */
  lemma StepKeepsInv(w: Wire, a: Action)
    requires Inv(w) && Step(w, a).Some?
    ensures Inv(Step(w, a).value)
  {
    hide FlowInv, CauseInv, Step;
    StepKeepsFlow(w, a);
    StepHasCause(w, a);
  }

  /** The environment may extend or close the input, receive from the output, let a drain receive, or end the
      context. */
  ghost predicate Environment(w: Wire, v: Wire) {
    && v.layer == w.layer.(ctx := v.layer.ctx) && (w.layer.ctx.Some? ==> v.layer.ctx == w.layer.ctx)
    && w.input.sent <= v.input.sent && WellFormed(v.input.sent)
    && (w.input.closed ==> v.input.closed && v.input.sent == w.input.sent)
    && w.input.taken <= v.input.taken <= |v.input.sent| && (!w.layer.draining ==> v.input.taken == w.input.taken)
    && v.output == w.output.(taken := v.output.taken) && w.output.taken <= v.output.taken <= |w.output.sent|
  }

  lemma EnvironmentKeepsInv(w: Wire, v: Wire)
    requires Inv(w) && Environment(w, v)
    ensures Inv(v)
  {
    hide FlowInv, CauseInv, Environment;
    EnvironmentKeepsFlow(w, v);
    EnvironmentKeepsCause(w, v);
  }

  lemma EnvironmentKeepsCause(w: Wire, v: Wire)
    requires CauseInv(w.layer) && Environment(w, v)
    ensures CauseInv(v.layer)
  {
    forall i | w.layer.nRead <= i < |w.layer.fed| ensures OwnTerminal(v.layer, v.layer.fed[i]) {
      assert OwnTerminal(w.layer, w.layer.fed[i]);
    }
  }

  lemma EnvironmentKeepsFlow(w: Wire, v: Wire)
    requires FlowInv(w) && Environment(w, v)
    ensures FlowInv(v)
  {
    hide Run, PhaseInv, EndsTerminal;
    var l := w.layer;
    SameStart(w.input.sent, v.input.sent, l.nRead);
    SameStart(w.input.sent, v.input.sent, Forwarded(l));
    EnvironmentKeepsPhase(w, v);
  }

  lemma SameStart(h: seq<Chunk>, longer: seq<Chunk>, k: nat)
    requires h <= longer && k <= |h|
    ensures longer[..k] == h[..k]
  {
  }

  lemma EnvironmentKeepsPhase(w: Wire, v: Wire)
    requires PhaseInv(w) && Environment(w, v) && w.layer.nRead <= |w.input.sent|
    ensures PhaseInv(v)
  {
    hide WellFormed;
    var l := w.layer;
    SameStart(w.input.sent, v.input.sent, l.nRead);
    if l.nRead > 0 { SameStart(w.input.sent, v.input.sent, l.nRead - 1); }
    if ReadAll(l, w.input) { ReadAllStays(w, v); }
  }

  lemma ReadAllStays(w: Wire, v: Wire)
    requires Environment(w, v) && ReadAll(w.layer, w.input)
    ensures ReadAll(v.layer, v.input)
  {
    NothingAfterTerminal(w.input.sent, v.input.sent);
  }

  lemma NothingAfterTerminal(h: seq<Chunk>, longer: seq<Chunk>)
    requires h <= longer && WellFormed(longer)
    ensures EndsTerminal(h) ==> longer == h
  {
  }

  // ---- What the invariant says of one layer ----

  /** The output is well formed: each chunk of the input up to some point, as the processor gave it back when it had
      seen those before, then at most one terminal of the layer's own. */
  lemma OutputWellFormed(w: Wire)
    requires Inv(w)
    ensures WellFormed(w.output.sent)
    ensures var k := Forwarded(w.layer);
            k <= |w.input.sent| && w.output.sent == Run(w.layer.proc, w.input.sent)[..k] + Tail(w.layer)
    ensures var h, out, k := w.input.sent, w.output.sent, Forwarded(w.layer);
      && k <= |out| == k + (if w.layer.synth.Some? then 1 else 0)
      && (forall i | 0 <= i < k :: out[i] == w.layer.proc(h[..i], h[i]))
      && (w.layer.synth.Some? ==> out[k] == w.layer.synth.value && Terminal(out[k]))
  {
    ForwardedWellFormed(w.layer.proc, w.input.sent, Forwarded(w.layer));
    RunPrefix(w.layer.proc, w.input.sent, Forwarded(w.layer));
  }

  /** A layer has closed its output exactly when it has exited, after running its finalizer once; and once the finalizer
      has run, it has sent its one terminal exactly if the deferred helper's delivery did not time out. */
  lemma ExitOrder(w: Wire)
    requires Inv(w)
    ensures ExitedInOrder(w) && EndsForCause(w.layer)
  {
  }

  ghost predicate ExitedInOrder(w: Wire) {
    && (w.output.closed <==> w.layer.pc.Exited?)
    && w.layer.finalized <= 1 && (w.output.closed ==> w.layer.finalized == 1)
    && (w.layer.finalized == 1 ==> (EndsTerminal(w.output.sent) <==> !w.layer.gaveUp))
  }

  /** The finalizer runs after the terminal attempt: from then on nothing is sent. */
  lemma NothingAfterFinalizer(w: Wire, a: Action)
    requires Inv(w) && Step(w, a).Some? && (w.layer.pc.Finalize? || w.layer.finalized == 1)
    ensures Step(w, a).value.output.sent == w.output.sent
  {
  }

  /** The loop is left, but for a failed Send, only when nothing is ready in the source, and then because the source has
      ended or the context has. */
  lemma LeavesNothingReady(w: Wire, a: Action)
    requires Inv(w) && Step(w, a).Some? && InLoop(w.layer.pc) && Step(w, a).value.layer.pc.Ensure?
    ensures !Ready(w.input) && (Drained(w.input) || w.layer.ctx.Some?)
  {
    hide Run, EndsTerminal;
  }

  /** Truncation never looks like success: an output ending in a terminal without an error has forwarded the whole
      input exactly when the layer lost no error terminal to a timed-out delivery. */
  lemma CleanEndIsWhole(w: Wire)
    requires Inv(w) && KeepsErrors(w.layer.proc) && EndsClean(w.output.sent)
    ensures !w.layer.lostError <==> Forwarded(w.layer) == |w.input.sent|
    ensures !w.layer.lostError ==> ReadAll(w.layer, w.input)
  {
    ForwardedWellFormed(w.layer.proc, w.input.sent, Forwarded(w.layer));
  }

  /** A goroutine that has not exited can always go on, but for waiting on an open, empty source with a live context. */
  lemma NeverStuck(w: Wire)
    requires Inv(w) && !w.layer.pc.Exited?
    requires w.layer.pc.ReceiveWait? ==> Ready(w.input) || Drained(w.input) || w.layer.ctx.Some?
    ensures exists a :: Step(w, a).Some?
  {
    var a := match w.layer.pc
      case ReceiveWait => if Ready(w.input) || Drained(w.input) then Take else CtxWins
      case SendWait(_) => TimerFires
      case DeliverWait(_, _) => TimerFires
      case _ => Go;
    assert Step(w, a).Some?;
  }
}

/** A stack of any height of stream wrappers, its source, its consumer and its contexts, interleaved. */
module StreamStack {
  import opened Options
  import opened StreamLayer

  /** Layer i reads channel i and writes channel i + 1; channel 0 is the source, the last is the consumer's. */
  datatype State = State(chans: seq<Channel>, layers: seq<Layer>)

  datatype Event =
    | SourceSend(c: Chunk)
    | SourceClose
    | LayerStep(i: nat, a: Action)
    | DrainTake(i: nat)          // DrainStream's goroutine discards a chunk of the source layer i abandoned
    | Consume                    // the consumer receives, or stops for as long as it likes
    | ContextDone(i: nat, err: Err)

  predicate Shaped(s: State) {
    |s.chans| == |s.layers| + 1
  }

  function At(s: State, i: nat): Wire
    requires Shaped(s) && i < |s.layers|
  {
    Wire(s.layers[i], s.chans[i], s.chans[i + 1])
  }

  function With(s: State, i: nat, w: Wire): State
    requires Shaped(s) && i < |s.layers|
  {
    State(s.chans[i := w.input][i + 1 := w.output], s.layers[i := w.layer])
  }

  /** The source is well formed: it sends nothing after a terminal or after closing. */
  function Next(s: State, e: Event): (t: Option<State>)
    requires Shaped(s)
    ensures t.Some? ==> Shaped(t.value) && |t.value.layers| == |s.layers|
  {
    var last := |s.layers|;
    match e
    case SourceSend(c) =>
      if s.chans[0].closed || EndsTerminal(s.chans[0].sent) then None
      else Some(s.(chans := s.chans[0 := s.chans[0].(sent := s.chans[0].sent + [c])]))
    case SourceClose => Some(s.(chans := s.chans[0 := s.chans[0].(closed := true)]))
    case LayerStep(i, a) =>
      if i >= last then None
      else (match Step(At(s, i), a) case None => None case Some(w) => Some(With(s, i, w)))
    case DrainTake(i) =>
      if i < last && s.layers[i].draining && Ready(s.chans[i])
      then Some(s.(chans := s.chans[i := TakeOne(s.chans[i])])) else None
    case Consume =>
      if Ready(s.chans[last]) then Some(s.(chans := s.chans[last := TakeOne(s.chans[last])])) else None
    case ContextDone(i, err) =>
      if i < last && s.layers[i].ctx.None?
      then Some(s.(layers := s.layers[i := s.layers[i].(ctx := Some(err))]))
      else None
  }

  ghost predicate Init(s: State) {
    && Shaped(s) && |s.layers| > 0
    && (forall i | 0 <= i < |s.layers| :: Initial(s.layers[i]))
    && (forall i | 0 <= i < |s.chans| :: s.chans[i] == Channel([], 0, false))
  }

  ghost predicate StackInv(s: State) {
    Shaped(s) && |s.layers| > 0 && forall i | 0 <= i < |s.layers| :: Inv(At(s, i))
  }

  /** The state after a sequence of events, or None when one of them is not possible. */
  function Execute(s: State, events: seq<Event>): (t: Option<State>)
    requires Shaped(s)
    ensures t.Some? ==> Shaped(t.value) && |t.value.layers| == |s.layers|
    decreases |events|
  {
    if events == [] then Some(s)
    else match Next(s, events[0])
      case None => None
      case Some(t) => Execute(t, events[1..])
  }

  lemma InitInv(s: State)
    requires Init(s)
    ensures StackInv(s)
  {
    forall i | 0 <= i < |s.layers| ensures Inv(At(s, i)) {
      assert Initial(s.layers[i]) && s.chans[i] == s.chans[i + 1] == Channel([], 0, false);
    }
  }

  lemma NextKeepsInv(s: State, e: Event)
    requires StackInv(s) && Next(s, e).Some?
    ensures StackInv(Next(s, e).value)
  {
    hide Inv, Step;
    var t := Next(s, e).value;
    forall j | 0 <= j < |t.layers| ensures Inv(At(t, j)) {
      if e.LayerStep? && e.i == j {
        StepKeepsInv(At(s, j), e.a);
        assert At(t, j) == Step(At(s, j), e.a).value;
      } else {
        NeighbourMoves(s, e, j);
        EnvironmentKeepsInv(At(s, j), At(t, j));
      }
    }
  }

  /** The part of the layer invariant its neighbours rely on. */
  ghost predicate Channels(w: Wire) {
    && w.input.taken <= |w.input.sent| && w.output.taken <= |w.output.sent|
    && WellFormed(w.input.sent) && WellFormed(w.output.sent) && (w.output.closed <==> w.layer.pc.Exited?)
  }

  lemma InvChannels(w: Wire)
    requires Inv(w)
    ensures Channels(w)
  {
    OutputWellFormed(w);
  }

  /** To layer j, every event but its own steps is a move of the environment. */
  lemma NeighbourMoves(s: State, e: Event, j: nat)
    requires StackInv(s) && Next(s, e).Some? && j < |s.layers| && !(e.LayerStep? && e.i == j)
    ensures Shaped(Next(s, e).value) && j < |Next(s, e).value.layers|
    ensures Environment(At(s, j), At(Next(s, e).value, j))
  {
    hide Inv, Step, Environment, Channels;
    var t := Next(s, e).value;
    assert Inv(At(s, j));
    InvChannels(At(s, j));
    if e.LayerStep? {
      assert Inv(At(s, e.i));
      StepEffect(At(s, e.i), e.a);
      if e.i + 1 == j {
        LeftMoves(s, t, j, Step(At(s, e.i), e.a).value);
      } else if e.i == j + 1 {
        RightMoves(s, t, j, Step(At(s, e.i), e.a).value);
      } else {
        Unmoved(At(s, j));
      }
    } else {
      OutsideMoves(s, e, j);
    }
  }

  /** The left neighbour may extend or close the input. */
  lemma LeftMoves(s: State, t: State, j: nat, v: Wire)
    requires Shaped(s) && 0 < j < |s.layers| && t == With(s, j - 1, v) && Channels(At(s, j))
    requires v.output.taken == s.chans[j].taken && s.chans[j].sent <= v.output.sent && WellFormed(v.output.sent)
    requires s.chans[j].closed ==> v.output == s.chans[j]
    ensures Environment(At(s, j), At(t, j))
  {
    hide WellFormed;
    assert At(t, j) == Wire(s.layers[j], v.output, s.chans[j + 1]);
  }

  /** The right neighbour may receive from the output. */
  lemma RightMoves(s: State, t: State, j: nat, v: Wire)
    requires Shaped(s) && j + 1 < |s.layers| && t == With(s, j + 1, v) && Channels(At(s, j))
    requires v.input == s.chans[j + 1].(taken := v.input.taken)
    requires s.chans[j + 1].taken <= v.input.taken <= |s.chans[j + 1].sent|
    ensures Environment(At(s, j), At(t, j))
  {
    hide WellFormed;
    assert At(t, j) == Wire(s.layers[j], s.chans[j], v.input);
  }

  lemma Unmoved(w: Wire)
    requires Channels(w)
    ensures Environment(w, w)
  {
  }

  /** The source, the consumer, a drain and the contexts. */
  lemma OutsideMoves(s: State, e: Event, j: nat)
    requires Shaped(s) && Next(s, e).Some? && j < |s.layers| && !e.LayerStep? && Channels(At(s, j))
    ensures Environment(At(s, j), At(Next(s, e).value, j))
  {
    hide Step;
  }

  /** What a step does to the two channels: it receives at most one chunk of the input, and extends or closes the
      still open output so that it stays well formed. */
  lemma StepEffect(w: Wire, a: Action)
    requires Inv(w) && Step(w, a).Some?
    ensures var v := Step(w, a).value;
      && v.input == w.input.(taken := v.input.taken) && w.input.taken <= v.input.taken <= |w.input.sent|
      && w.output.taken == v.output.taken && w.output.sent <= v.output.sent && WellFormed(v.output.sent)
      && (w.output.closed ==> v.output == w.output) && v.layer.ctx == w.layer.ctx
  {
    hide Inv, Step, Run, WellFormed;
    InvChannels(w);
    StepKeepsInv(w, a);
    InvChannels(Step(w, a).value);
    assert Effect(w, Step(w, a));
  }

  /** Every state of every interleaving satisfies the invariant. */
  lemma {:induction false} ExecuteKeepsInv(s: State, events: seq<Event>)
    requires StackInv(s) && Execute(s, events).Some?
    ensures StackInv(Execute(s, events).value)
    decreases |events|
  {
    if events != [] {
      NextKeepsInv(s, events[0]);
      ExecuteKeepsInv(Next(s, events[0]).value, events[1..]);
    }
  }

  // ---- The stack from end to end ----

  /** A history without its terminal. */
  function Body(h: seq<Chunk>): seq<Chunk> {
    if EndsTerminal(h) then h[..|h| - 1] else h
  }

  /** The processors of the layers, one after the other. */
  function Through(layers: seq<Layer>, h: seq<Chunk>): seq<Chunk> {
    if layers == [] then h
    else Run(layers[|layers| - 1].proc, Through(layers[..|layers| - 1], h))
  }

  lemma RunMonotone(p: Processor, h: seq<Chunk>, longer: seq<Chunk>)
    requires h <= longer
    ensures Run(p, h) <= Run(p, longer)
  {
    RunPrefix(p, longer, |h|);
    assert longer[..|h|] == h;
  }

  /** One layer forwards a prefix of its processed input, and all of it once its whole input is forwarded. */
  lemma LayerBody(w: Wire)
    requires Inv(w)
    ensures Body(w.output.sent) <= Run(w.layer.proc, Body(w.input.sent))
    ensures Forwarded(w.layer) == |w.input.sent| ==> Body(w.output.sent) == Run(w.layer.proc, Body(w.input.sent))
  {
    var p, h, k := w.layer.proc, w.input.sent, Forwarded(w.layer);
    ForwardedWellFormed(p, h, k);
    var base := Run(p, h[..k]);
    if EndsTerminal(base) {
      RunPrefix(p, h[..k], k - 1);
      assert h[..k][..k - 1] == h[..k - 1] == Body(h);
    } else {
      assert Body(w.output.sent) == base;
      if k == |h| { assert h[..k] == h == Body(h); }
      assert h[..k] <= Body(h);
      RunMonotone(p, h[..k], Body(h));
    }
  }

  /** On every run, what the consumer can receive before the terminal is a prefix of the processed source. */
  lemma {:induction false} StackForwardsPrefix(s: State, i: nat)
    requires StackInv(s) && i <= |s.layers|
    ensures Body(s.chans[i].sent) <= Through(s.layers[..i], Body(s.chans[0].sent))
  {
    hide Inv, Run, Body;
    if i > 0 {
      StackForwardsPrefix(s, i - 1);
      assert Inv(At(s, i - 1));
      LayerBody(At(s, i - 1));
      assert s.layers[..i][..i - 1] == s.layers[..i - 1];
      RunMonotone(s.layers[i - 1].proc, Body(s.chans[i - 1].sent), Through(s.layers[..i - 1], Body(s.chans[0].sent)));
    }
  }

  /** The channel has ended without an error: with a clean terminal, or closed without any. */
  predicate EndedClean(ch: Channel) {
    EndsClean(ch.sent) || (ch.closed && !EndsTerminal(ch.sent))
  }

  lemma CleanEndPassesDown(w: Wire)
    requires Inv(w) && KeepsErrors(w.layer.proc) && !w.layer.lostError && EndedClean(w.output)
    ensures EndedClean(w.input) && Forwarded(w.layer) == |w.input.sent|
  {
    var p, h, k := w.layer.proc, w.input.sent, Forwarded(w.layer);
    ForwardedWellFormed(p, h, k);
    if EndsClean(w.output.sent) {
      CleanEndIsWhole(w);
      assert h[..k] == h;
    } else {
      assert Settled(w);
    }
  }

  /** Truncation never looks like success through the whole stack: if no layer lost an error terminal to a timed-out
      delivery, a consumer that sees a terminal without an error has been sent the whole processed source, and the
      source had ended. */
  lemma {:induction false} StackTruncationIsVisible(s: State, i: nat)
    requires StackInv(s) && i <= |s.layers| && EndedClean(s.chans[i])
    requires forall j | 0 <= j < i :: KeepsErrors(s.layers[j].proc) && !s.layers[j].lostError
    ensures Body(s.chans[i].sent) == Through(s.layers[..i], Body(s.chans[0].sent))
    ensures EndedClean(s.chans[0])
  {
    if i > 0 {
      CleanEndPassesDown(At(s, i - 1));
      StackTruncationIsVisible(s, i - 1);
      LayerBody(At(s, i - 1));
      assert s.layers[..i][..i - 1] == s.layers[..i - 1];
    }
  }

  /** No processor turns an error into something else, and no layer lost an error terminal. */
  ghost predicate NothingLost(s: State) {
    forall j | 0 <= j < |s.layers| :: KeepsErrors(s.layers[j].proc) && !s.layers[j].lostError
  }

  /** The processor changes no error: it makes none, and passes on what it is given. */
  ghost predicate PassesErrors(p: Processor) {
    forall h, c: Chunk :: p(h, c).error == c.error
  }

  predicate EndsWith(h: seq<Chunk>, e: Err) {
    EndsTerminal(h) && h[|h| - 1].error == Some(e)
  }

  /** If no processor changes errors, then an error that ends a stream of the stack is the one that ended the source, or
      it is the error of the context of a layer on the way, or a timeout that a Send of such a layer ran into. */
  lemma {:induction false} ErrorHasCause(s: State, i: nat, e: Err)
    requires StackInv(s) && i <= |s.layers| && EndsWith(s.chans[i].sent, e)
    requires forall j | 0 <= j < i :: PassesErrors(s.layers[j].proc)
    ensures EndsWith(s.chans[0].sent, e) || exists j :: 0 <= j < i && HasCause(s.layers[j], e)
  {
    hide Inv;
    if i > 0 {
      LayerErrorHasCause(At(s, i - 1), e);
      if !HasCause(s.layers[i - 1], e) { ErrorHasCause(s, i - 1, e); }
    }
  }

  lemma LayerErrorHasCause(w: Wire, e: Err)
    requires Inv(w) && PassesErrors(w.layer.proc) && EndsWith(w.output.sent, e)
    ensures HasCause(w.layer, e) || EndsWith(w.input.sent, e)
  {
    hide Run;
    OutputWellFormed(w);
    var l, h, k := w.layer, w.input.sent, Forwarded(w.layer);
    if l.synth.Some? {
      assert MadeLast(l, l.synth.value) && OwnTerminal(l, l.fed[|l.fed| - 1]);
    } else {
      assert w.output.sent[k - 1] == l.proc(h[..k - 1], h[k - 1]) && Terminal(h[k - 1]);
    }
  }

  /** Over every interleaving, and at each of its events: a terminal that layer j makes at it is the context's error if
      the context had ended by then and a plain Done if it had not, but that after a Send that timed out the first one
      is StreamTimeout. */
  lemma {:induction false} TerminalsMadeForCause(s: State, events: seq<Event>, i: nat, j: nat)
    requires Init(s) && i < |events| && j < |s.layers| && Execute(s, events[..i + 1]).Some?
    ensures Execute(s, events[..i]).Some?
    ensures MadeForCause(Execute(s, events[..i]).value.layers[j], Execute(s, events[..i + 1]).value.layers[j])
  {
    hide Inv, Step, MadeForCause, Init;
    InitInv(s);
    ExecuteNext(s, events[..i + 1]);
    assert events[..i + 1][..i] == events[..i];
    var t, e := Execute(s, events[..i]).value, events[i];
    ExecuteKeepsInv(s, events[..i]);
    if e.LayerStep? && e.i == j {
      StepHasCause(At(t, j), e.a);
    } else {
      NeighbourMoves(t, e, j);
      NothingMade(At(t, j), At(Next(t, e).value, j));
    }
  }

  lemma NothingMade(w: Wire, v: Wire)
    requires Environment(w, v)
    ensures MadeForCause(w.layer, v.layer)
  {
  }

  lemma {:induction false} ExecuteNext(s: State, events: seq<Event>)
    requires Shaped(s) && events != [] && Execute(s, events).Some?
    ensures var front := Execute(s, events[..|events| - 1]);
      front.Some? && Next(front.value, events[|events| - 1]) == Execute(s, events)
    decreases |events|
  {
    hide Next;
    if |events| > 1 {
      ExecuteNext(Next(s, events[0]).value, events[1..]);
      assert events[1..][..|events| - 2] == events[..|events| - 1][1..];
    } else {
      assert events[..0] == [] && events[1..] == [];
    }
  }

  /** Once the source has closed, some goroutine of the stack can go on until all have exited, whether the consumer
      reads or not and whether any context ends or not. */
  lemma StackNeverStuck(s: State)
    requires StackInv(s) && s.chans[0].closed && exists i :: 0 <= i < |s.layers| && !s.layers[i].pc.Exited?
    ensures exists i, a :: 0 <= i < |s.layers| && Next(s, LayerStep(i, a)).Some?
  {
    hide Inv, Step, Next;
    var i := FirstRunning(s);
    if i > 0 { InvChannels(At(s, i - 1)); }
    InvChannels(At(s, i));
    NeverStuck(At(s, i));
    var a :| Step(At(s, i), a).Some?;
    LayerGoes(s, i, a);
  }

  lemma LayerGoes(s: State, i: nat, a: Action)
    requires Shaped(s) && i < |s.layers| && Step(At(s, i), a).Some?
    ensures Next(s, LayerStep(i, a)).Some?
  {
    hide Step;
  }

  lemma {:induction false} FirstRunning(s: State) returns (i: nat)
    requires exists i :: 0 <= i < |s.layers| && !s.layers[i].pc.Exited?
    ensures i < |s.layers| && !s.layers[i].pc.Exited? && forall j | 0 <= j < i :: s.layers[j].pc.Exited?
  {
    i := 0;
    while s.layers[i].pc.Exited?
      invariant i < |s.layers| && forall j | 0 <= j < i :: s.layers[j].pc.Exited?
      decreases |s.layers| - i
    {
      i := i + 1;
    }
  }

  /** The main theorem, over every interleaving: each channel of the stack carries a well-formed stream; each layer
      sends its one terminal, exactly if its last delivery did not time out, then runs its finalizer once, then
      closes; every terminal it makes has a reason; the consumer's stream is a processed prefix of the source; and a
      clean end is a whole one unless an error terminal was lost. */
  lemma StackTheorem(s: State, events: seq<Event>)
    requires Init(s) && Execute(s, events).Some?
    ensures var t := Execute(s, events).value;
      var n := |t.layers|;
      && (forall i | 0 <= i <= n :: WellFormed(t.chans[i].sent))
      && (forall j | 0 <= j < n :: ExitedInOrder(At(t, j)) && EndsForCause(t.layers[j]))
      && Body(t.chans[n].sent) <= Through(t.layers, Body(t.chans[0].sent))
      && (NothingLost(t) && EndsClean(t.chans[n].sent) ==>
            Body(t.chans[n].sent) == Through(t.layers, Body(t.chans[0].sent)) && EndedClean(t.chans[0]))
  {
    hide Inv, Next, Initial, Run, KeepsErrors, ExitedInOrder, EndsForCause;
    InitInv(s);
    ExecuteKeepsInv(s, events);
    var t := Execute(s, events).value;
    var n := |t.layers|;
    forall i | 0 <= i <= n ensures WellFormed(t.chans[i].sent) {
      InvChannels(At(t, if i < n then i else n - 1));
    }
    forall j | 0 <= j < n ensures ExitedInOrder(At(t, j)) && EndsForCause(t.layers[j]) { ExitOrder(At(t, j)); }
    StackForwardsPrefix(t, n);
    assert t.layers[..n] == t.layers;
    if NothingLost(t) && EndsClean(t.chans[n].sent) {
      StackTruncationIsVisible(t, n);
    }
  }

  // ---- The excluded run exists ----

  function Text(n: int): Chunk { Chunk(n, false, None) }

  function Same(h: seq<Chunk>, c: Chunk): Chunk { c }

  function Echo(): Layer {
    Layer(Same, 1, None, Receive, false, false, false, 0, [], false, None, false, false, 0)
  }

  function Start(): State {
    State([Channel([], 0, false), Channel([], 0, false)], [Echo()])
  }

  // The first chunk goes through; the second waits for room.
  const EVENTS_1 := [SourceSend(Text(1)), SourceSend(Text(2)), LayerStep(0, Go), LayerStep(0, Go), LayerStep(0, Go)]
  // Its Send times out.
  const EVENTS_2 := [LayerStep(0, Go), LayerStep(0, TimerFires)]
  // So does the delivery of the terminal it owes.
  const EVENTS_3 := [LayerStep(0, Go), LayerStep(0, Go), LayerStep(0, TimerFires)]
  // The consumer reads the first chunk, and the deferred helper delivers a plain Done.
  const EVENTS_4 := [Consume, LayerStep(0, Go), LayerStep(0, Go)]

  function Run1(): State {
    State([Channel([Text(1), Text(2)], 2, false), Channel([Text(1)], 0, false)],
          [Echo().(nRead := 2, fed := [Text(1), Text(2)], pc := Sending(Text(2)))])
  }

  function Run2(): State {
    Run1().(layers := [Run1().layers[0].(pc := Forward(SendTimeout), timedOut := true, draining := true,
                                         failed := true)])
  }

  function Run3(): State {
    Run2().(layers := [Run2().layers[0].(pc := Ensure, lostError := true,
                                         fed := [Text(1), Text(2), Chunk(0, false, Some(StreamTimeout))])])
  }

  function Run4(): State {
    State([Channel([Text(1), Text(2)], 2, false), Channel([Text(1), Chunk(0, true, None)], 1, false)],
          [Run3().layers[0].(pc := Finalize, terminalSent := true, synth := Some(Chunk(0, true, None)),
                             fed := Run3().layers[0].fed + [Chunk(0, true, None)])])
  }

  lemma Reaches1()
    ensures Execute(Start(), EVENTS_1) == Some(Run1())
  {
    var es := EVENTS_1;
    var s1 := Next(Start(), es[0]).value;
    var s2 := Next(s1, es[1]).value;
    var s3 := Next(s2, es[2]).value;
    assert s3.layers[0].fed == [Text(1)];
    assert s3.layers == [Echo().(nRead := 1, fed := [Text(1)], pc := Sending(Text(1)))];
    var s4 := Next(s3, es[3]).value;
    assert s4.layers == [Echo().(nRead := 1, fed := [Text(1)])];
    var s5 := Next(s4, es[4]).value;
    assert s5.layers[0].fed == [Text(1), Text(2)] && s5.chans[0].sent == [Text(1), Text(2)]
      && s5.chans[1].sent == [Text(1)];
    assert s5 == Run1();
    Unroll(Start(), es, [Start(), s1, s2, s3, s4, s5]);
  }

  lemma Reaches2()
    ensures Execute(Run1(), EVENTS_2) == Some(Run2())
  {
    var s1 := Next(Run1(), EVENTS_2[0]).value;
    var s2 := Next(s1, EVENTS_2[1]).value;
    assert s2 == Run2();
    Unroll(Run1(), EVENTS_2, [Run1(), s1, s2]);
  }

  lemma Reaches3()
    ensures Execute(Run2(), EVENTS_3) == Some(Run3())
  {
    var s1 := Next(Run2(), EVENTS_3[0]).value;
    assert s1.layers[0].pc == Deliver(Chunk(0, false, Some(StreamTimeout)), true);
    var s2 := Next(s1, EVENTS_3[1]).value;
    var s3 := Next(s2, EVENTS_3[2]).value;
    assert s3.layers[0].fed == Run3().layers[0].fed;
    assert s3 == Run3();
    Unroll(Run2(), EVENTS_3, [Run2(), s1, s2, s3]);
  }

  lemma Reaches4()
    ensures Execute(Run3(), EVENTS_4) == Some(Run4())
  {
    var s1 := Next(Run3(), EVENTS_4[0]).value;
    var s2 := Next(s1, EVENTS_4[1]).value;
    assert s2.layers[0].pc == Deliver(Chunk(0, true, None), false);
    var s3 := Next(s2, EVENTS_4[2]).value;
    assert s3.layers[0].fed == Run4().layers[0].fed && s3.chans[1].sent == Run4().chans[1].sent;
    assert s3 == Run4();
    Unroll(Run3(), EVENTS_4, [Run3(), s1, s2, s3]);
  }

  /** The exclusion is needed: after these events the consumer's stream is the first chunk and a clean Done, though
      the source's second chunk was dropped. */
  lemma LostErrorLooksClean()
    ensures Init(Start()) && Execute(Start(), EVENTS_1 + EVENTS_2 + EVENTS_3 + EVENTS_4).Some?
    ensures var t := Execute(Start(), EVENTS_1 + EVENTS_2 + EVENTS_3 + EVENTS_4).value;
      && t.layers[0].lostError && EndsClean(t.chans[1].sent)
      && Body(t.chans[1].sent) == [Text(1)] && Body(t.chans[0].sent) == [Text(1), Text(2)]
  {
    hide Next, Execute;
    Reaches1();
    Reaches2();
    Reaches3();
    Reaches4();
    ExecuteConcat(Start(), EVENTS_1, EVENTS_2);
    ExecuteConcat(Start(), EVENTS_1 + EVENTS_2, EVENTS_3);
    ExecuteConcat(Start(), EVENTS_1 + EVENTS_2 + EVENTS_3, EVENTS_4);
  }

  // With nobody receiving, the deferred helper's delivery times out too, and the layer closes.
  const EVENTS_5 := [LayerStep(0, Go), LayerStep(0, Go), LayerStep(0, TimerFires), LayerStep(0, Go), LayerStep(0, Go)]

  function Run5(): State {
    State([Channel([Text(1), Text(2)], 2, false), Channel([Text(1)], 0, true)],
          [Run3().layers[0].(pc := Exited, gaveUp := true, finalized := 1,
                             fed := Run3().layers[0].fed + [Chunk(0, true, None)])])
  }

  lemma Reaches5()
    ensures Execute(Run3(), EVENTS_5) == Some(Run5())
  {
    var s1 := Next(Run3(), EVENTS_5[0]).value;
    assert s1.layers[0].pc == Deliver(Chunk(0, true, None), false);
    var s2 := Next(s1, EVENTS_5[1]).value;
    var s3 := Next(s2, EVENTS_5[2]).value;
    assert s3.layers[0].pc == Finalize && s3.layers[0].fed == Run5().layers[0].fed;
    var s4 := Next(s3, EVENTS_5[3]).value;
    var s5 := Next(s4, EVENTS_5[4]).value;
    assert s5 == Run5();
    Unroll(Run3(), EVENTS_5, [Run3(), s1, s2, s3, s4, s5]);
  }

  /** A stream can close without any terminal: after these events the output is closed and holds one plain chunk. */
  lemma ClosesWithoutTerminal()
    ensures Init(Start()) && Execute(Start(), EVENTS_1 + EVENTS_2 + EVENTS_3 + EVENTS_5).Some?
    ensures var t := Execute(Start(), EVENTS_1 + EVENTS_2 + EVENTS_3 + EVENTS_5).value;
      t.chans[1].closed && t.chans[1].sent == [Text(1)] && !EndsTerminal(t.chans[1].sent) && t.layers[0].gaveUp
  {
    hide Next, Execute;
    Reaches1();
    Reaches2();
    Reaches3();
    Reaches5();
    ExecuteConcat(Start(), EVENTS_1, EVENTS_2);
    ExecuteConcat(Start(), EVENTS_1 + EVENTS_2, EVENTS_3);
    ExecuteConcat(Start(), EVENTS_1 + EVENTS_2 + EVENTS_3, EVENTS_5);
  }

  lemma {:induction false} ExecuteConcat(s: State, a: seq<Event>, b: seq<Event>)
    requires Shaped(s) && Execute(s, a).Some?
    ensures Execute(s, a + b) == Execute(Execute(s, a).value, b)
    decreases |a|
  {
    if a == [] {
      assert a + b == b;
    } else {
      assert (a + b)[1..] == a[1..] + b;
      ExecuteConcat(Next(s, a[0]).value, a[1..], b);
    }
  }

  /** A run is given by the states along it. */
  lemma {:induction false} Unroll(s: State, events: seq<Event>, states: seq<State>)
    requires |states| == |events| + 1 && states[0] == s && (forall k | 0 <= k < |states| :: Shaped(states[k]))
    requires forall k | 0 <= k < |events| :: Next(states[k], events[k]) == Some(states[k + 1])
    ensures Execute(s, events) == Some(states[|events|])
    decreases |events|
  {
    if events != [] {
      Unroll(states[1], events[1..], states[1..]);
    }
  }
}

/** How reasoning and tool-call signatures are kept with a session's parts and read back for the next request
    (llmadk/envelope.go, llmadk/response.go, llmadk/request.go, provenance.go). JSON encoding is a parameter. */
module Signatures {
  import opened Base64
  import opened Options

  const GEMINI := "gemini"
  const KIND_THOUGHT := "thought"
  const KIND_CALL := "call"
  const METADATA_KEY := "llmgo.reasoning"
  const VERSION: byte := 1
  const MAX_ENVELOPE_SIZE := 8 * 1024 * 1024

  function Bytes(s: string): seq<byte> {
    seq(|s|, i requires 0 <= i < |s| => s[i] as int % 256)
  }

  function Magic(): (r: seq<byte>)
    ensures |r| == 5
  {
    Bytes("llmgo")
  }

  /** The signature Google documents for calls that Gemini did not make. */
  function Placeholder(): (r: seq<byte>)
    ensures r != []
  {
    Bytes("skip_thought_signature_validator")
  }

  /** Who produced what: reasoning, or the signature of a tool call. `metadata` is the provider's own data. */
  datatype Reasoning = Reasoning(content: string, signature: string, metadata: string, tokens: int, provider: string,
                                 model: string)

  datatype ToolCall = ToolCall(id: string, signature: string, signatureProvider: string)

  datatype Envelope = Envelope(kind: string, provider: string, model: string, content: Option<string>,
                               signature: string,
                               metadata: string, tokens: int)

  const EMPTY := Envelope("", "", "", None, "", "", 0)

  datatype DecodeResult = SigNone | SigEnvelope | SigNative | SigInvalid

  /** json.Marshal and json.Unmarshal for envelopes. */
  datatype Codec = Codec(marshal: Envelope -> seq<byte>, unmarshal: seq<byte> -> Option<Envelope>)

  predicate Faithful(j: Codec, e: Envelope) {
    j.unmarshal(j.marshal(e)) == Some(e)
  }

  /** A value of PartMetadata. */
  datatype Meta = Text(s: string) | Other

  /** What a part holds that matters here. */
  datatype Stored = Stored(text: string, thoughtSignature: seq<byte>, metadata: map<string, Meta>)

  const BLANK := Stored("", [], map[])

  // ---- Envelopes ----

  function EncodeEnvelope(j: Codec, e: Envelope): seq<byte> {
    Magic() + [VERSION] + j.marshal(e)
  }

  function DecodeEnvelope(j: Codec, b: seq<byte>): (Envelope, DecodeResult) {
    if |b| > MAX_ENVELOPE_SIZE || |b| < |Magic()| + 1 || !(Magic() <= b) then (EMPTY, SigInvalid)
    else if b[|Magic()|] != VERSION then (EMPTY, SigInvalid)
    else
      var e := j.unmarshal(b[|Magic()| + 1..]);
      if e.None? then (EMPTY, SigInvalid) else (e.value, SigEnvelope)
  }

  /** Small enough to be read back. */
  predicate Fits(j: Codec, e: Envelope) {
    |j.marshal(e)| + 6 <= MAX_ENVELOPE_SIZE
  }

  lemma EnvelopeRoundTrip(j: Codec, e: Envelope)
    requires Faithful(j, e)
    ensures DecodeEnvelope(j, EncodeEnvelope(j, e)) == if Fits(j, e) then (e, SigEnvelope) else (EMPTY, SigInvalid)
  {
    var b := EncodeEnvelope(j, e);
    assert b[5] == VERSION;
    assert b[6..] == j.marshal(e);
  }

  /** geminiSignatureBytes. */
  function NativeBytes(sig: string): Option<seq<byte>> {
    var raw := Decode(sig);
    if raw.None? || raw.value == [] || Magic() <= raw.value then None else raw
  }

  /** partSignature. */
  function PartSignature(j: Codec, p: Stored): (Envelope, DecodeResult) {
    if METADATA_KEY in p.metadata then
      var v := p.metadata[METADATA_KEY];
      if v.Other? then (EMPTY, SigInvalid)
      else
        var raw := Decode(v.s);
        if raw.None? then (EMPTY, SigInvalid) else DecodeEnvelope(j, raw.value)
    else if p.thoughtSignature == [] then (EMPTY, SigNone)
    else (Envelope(KIND_THOUGHT, GEMINI, "", None, Encode(p.thoughtSignature), "", 0), SigNative)
  }

  function WithEnvelope(j: Codec, p: Stored, e: Envelope): Stored {
    p.(metadata := p.metadata[METADATA_KEY := Text(Encode(EncodeEnvelope(j, e)))])
  }

  lemma EnvelopeIsRead(j: Codec, p: Stored, e: Envelope)
    requires Faithful(j, e)
    ensures PartSignature(j, WithEnvelope(j, p, e)) == if Fits(j, e) then (e, SigEnvelope) else (EMPTY, SigInvalid)
  {
    RoundTrip(EncodeEnvelope(j, e));
    EnvelopeRoundTrip(j, e);
  }

  // ---- Tool calls ----

  function CallEnvelope(tc: ToolCall): Envelope {
    Envelope(KIND_CALL, tc.signatureProvider, "", None, tc.signature, "", 0)
  }

  /** A call's part, the first one of a turn with a placeholder when nothing else is there. */
  function StoredCall(j: Codec, tc: ToolCall, first: bool): Stored {
    var attached :=
      if tc.signature == "" then BLANK
      else if tc.signatureProvider == GEMINI && NativeBytes(tc.signature).Some?
      then BLANK.(thoughtSignature := NativeBytes(tc.signature).value)
      else WithEnvelope(j, BLANK, CallEnvelope(tc));
    if first && attached.thoughtSignature == [] then attached.(thoughtSignature := Placeholder()) else attached
  }

  /** The call as the next request sees it. */
  function ReadCall(j: Codec, id: string, p: Stored): ToolCall {
    var (e, res) := PartSignature(j, p);
    if Read(res) then ToolCall(id, e.signature, e.provider) else ToolCall(id, "", "")
  }

  /** SignatureReplayableBy. */
  predicate SignatureReplayableBy(tc: ToolCall, p: string) {
    tc.signature != "" && (tc.signatureProvider == "" || tc.signatureProvider == p)
  }

  function KeptFor(tc: ToolCall, p: string): ToolCall {
    if !SignatureReplayableBy(tc, p) && tc.signature != "" then tc.(signature := "", signatureProvider := "") else tc
  }

  /** A call stored in a session, read back and prepared for provider `p`. */
  function Replayed(j: Codec, tc: ToolCall, first: bool, p: string): ToolCall {
    KeptFor(ReadCall(j, tc.id, StoredCall(j, tc, first)), p)
  }

  lemma StoredCallIsRead(j: Codec, tc: ToolCall, first: bool)
    requires tc.signature != "" && Faithful(j, CallEnvelope(tc))
    requires !(tc.signatureProvider == GEMINI && NativeBytes(tc.signature).Some?)
    ensures ReadCall(j, tc.id, StoredCall(j, tc, first))
      == if Fits(j, CallEnvelope(tc)) then tc else ToolCall(tc.id, "", "")
  {
    EnvelopeIsRead(j, BLANK, CallEnvelope(tc));
    EnvelopeIsRead(j, BLANK.(thoughtSignature := Placeholder()), CallEnvelope(tc));
  }

  /** For any provider but Gemini: the original signature if it was unstamped or issued by that provider, else none.
      Only an envelope past the size limit is lost. */
  lemma SignatureForProvider(j: Codec, tc: ToolCall, first: bool, p: string)
    requires p != GEMINI && Faithful(j, CallEnvelope(tc))
    ensures Replayed(j, tc, first, p).signature ==
      if (tc.signatureProvider == "" || tc.signatureProvider == p) && Fits(j, CallEnvelope(tc))
      then tc.signature else ""
  {
    if tc.signature != "" && !(tc.signatureProvider == GEMINI && NativeBytes(tc.signature).Some?) {
      StoredCallIsRead(j, tc, first);
    }
  }

  /** Gemini gets its own signature back in canonical form, so unchanged exactly when it was canonical or was no base64
      text of bytes that Gemini could have issued. */
  lemma SignatureForGemini(j: Codec, tc: ToolCall, first: bool)
    requires tc.signature != "" && tc.signatureProvider == GEMINI
    requires Faithful(j, CallEnvelope(tc)) && Fits(j, CallEnvelope(tc))
    ensures Replayed(j, tc, first, GEMINI) == tc <==> NativeBytes(tc.signature).None? || Canonical(tc.signature)
  {
    if NativeBytes(tc.signature).Some? {
      var raw := NativeBytes(tc.signature).value;
      CanonicalExactly(tc.signature);
      EncodeNonEmpty(raw);
    } else {
      StoredCallIsRead(j, tc, first);
    }
  }

  lemma EncodeNonEmpty(b: seq<byte>)
    ensures b != [] ==> Encode(b) != ""
  {
  }

  /** For Gemini: an unstamped signature is kept, a foreign one dropped, and a call without one has the placeholder if
      it is the first of its turn. */
  lemma OtherSignaturesForGemini(j: Codec, tc: ToolCall, first: bool)
    requires tc.signature == "" || tc.signatureProvider != GEMINI
    requires Faithful(j, CallEnvelope(tc)) && Fits(j, CallEnvelope(tc))
    ensures Replayed(j, tc, first, GEMINI).signature ==
      if tc.signature == "" then if first then Encode(Placeholder()) else ""
      else if tc.signatureProvider == "" then tc.signature else ""
  {
    EncodeNonEmpty(Placeholder());
    if tc.signature != "" { StoredCallIsRead(j, tc, first); }
  }

  // ---- Thoughts ----

  predicate HasContent(r: Reasoning) {
    r.content != "" || r.signature != "" || r.metadata != ""
  }

  function ThoughtEnvelope(r: Reasoning, includeText: bool): Envelope {
    var content := if includeText then Some(r.content) else None;
    Envelope(KIND_THOUGHT, r.provider, r.model, content, r.signature, r.metadata, r.tokens)
  }

  /** thoughtPart. */
  function ThoughtPart(j: Codec, r: Reasoning, hidden: bool): Option<Stored> {
    if !HasContent(r) then None
    else if r.provider == GEMINI && r.metadata == "" then
      var raw := NativeBytes(r.signature);
      if hidden && raw.None? then None
      else Some(Stored(if hidden then "" else r.content, if raw.Some? then raw.value else [], map[]))
    else Some(WithEnvelope(j, if hidden then BLANK else BLANK.(text := r.content), ThoughtEnvelope(r, hidden)))
  }

  /** What modelContent makes of a turn with this thought part. */
  function ReadThought(j: Codec, p: Stored): Option<Reasoning> {
    var (e, res) := PartSignature(j, p);
    if Read(res) then Some(ReasoningOf(e, p.text))
    else if p.text != "" then Some(Reasoning(p.text, "", "", 0, "", ""))
    else None
  }

  /** Reasoning of any other provider comes back complete, whether its text was shown or hidden. */
  lemma ThoughtRoundTrip(j: Codec, r: Reasoning, hidden: bool)
    requires HasContent(r) && !(r.provider == GEMINI && r.metadata == "")
    requires Faithful(j, ThoughtEnvelope(r, hidden)) && Fits(j, ThoughtEnvelope(r, hidden))
    ensures var p := ThoughtPart(j, r, hidden);
      p.Some? && ReadThought(j, p.value) == Some(r) && (hidden ==> p.value.text == "")
  {
    EnvelopeIsRead(j, if hidden then BLANK else BLANK.(text := r.content), ThoughtEnvelope(r, hidden));
  }

  /** Of Gemini's own reasoning only the signature has to come back, and does when it is canonical. */
  lemma GeminiThought(j: Codec, r: Reasoning, hidden: bool)
    requires r.provider == GEMINI && r.metadata == "" && NativeBytes(r.signature).Some? && Canonical(r.signature)
    ensures var p := ThoughtPart(j, r, hidden);
      p.Some? && ReadThought(j, p.value)
        == Some(Reasoning(if hidden then "" else r.content, r.signature, "", 0, GEMINI, ""))
  {
    CanonicalExactly(r.signature);
    assert Decode("") == Some([]);
  }

  // ---- A whole turn ----

  /** A model's turn. Its calls have the IDs assigned to them (CallIds). */
  datatype Turn = Turn(content: string, reasoning: Option<Reasoning>, calls: seq<ToolCall>)

  /** A part of a session's content, of the kinds a turn is stored in, or another kind. */
  datatype SessionPart = ThoughtOf(p: Stored) | TextOf(text: string) | CallOf(id: string, p: Stored) | Unsupported

  /** Nothing but thought: ADK would call the model again after a turn that is stored as a thought part alone. */
  predicate ThoughtOnly(t: Turn) {
    t.content == "" && t.calls == []
  }

  function CallParts(j: Codec, calls: seq<ToolCall>): seq<SessionPart> {
    seq(|calls|, i requires 0 <= i < |calls| => CallOf(calls[i].id, StoredCall(j, calls[i], i == 0)))
  }

  /** The thought part of a turn, if it gets one. */
  function StoredThought(j: Codec, t: Turn, hidden: bool): Option<Stored> {
    if (hidden && ThoughtOnly(t)) || t.reasoning.None? then None else ThoughtPart(j, t.reasoning.value, hidden)
  }

  function SessionParts(j: Codec, t: Turn, hidden: bool): seq<SessionPart> {
    (match StoredThought(j, t, hidden) case None => [] case Some(p) => [ThoughtOf(p)])
    + (if t.content != "" then [TextOf(t.content)] else [])
    + CallParts(j, t.calls)
  }

  function Rank(part: SessionPart): nat {
    match part case ThoughtOf(_) => 0 case TextOf(_) => 1 case CallOf(_, _) => 2 case Unsupported => 3
  }

  /** The thought comes first, then the text, then the calls, each of which is there as often as in the turn. */
  lemma {:induction false} PartsInOrder(j: Codec, t: Turn, hidden: bool)
    ensures var parts := SessionParts(j, t, hidden); var n := |parts| - |t.calls|;
      && 0 <= n <= 2 && (forall k | 0 <= k < |parts| :: parts[k].CallOf? <==> k >= n)
      && (forall i | 0 <= i < |t.calls| :: parts[n + i].id == t.calls[i].id)
      && (forall i, k | 0 <= i < k < |parts| :: Rank(parts[i]) <= Rank(parts[k]))
      && (t.content != "" <==> n > 0 && parts[n - 1] == TextOf(t.content))
      && ((exists k :: 0 <= k < |parts| && parts[k].TextOf?) ==> t.content != "")
  {
    hide StoredThought, StoredCall;
  }

  /** What modelContent has gathered. */
  datatype Gathered = Gathered(text: string, thought: string, env: Option<Envelope>, calls: seq<ToolCall>, dropped: nat)

  const NOTHING := Gathered("", "", None, [], 0)

  predicate Read(res: DecodeResult) {
    res.SigEnvelope? || res.SigNative?
  }

  function Gather(j: Codec, parts: seq<SessionPart>): Gathered {
    if parts == [] then NOTHING else GatherPart(j, Gather(j, parts[..|parts| - 1]), parts[|parts| - 1])
  }

  function GatherPart(j: Codec, g: Gathered, part: SessionPart): Gathered {
    match part
    case ThoughtOf(p) =>
      var (e, res) := PartSignature(j, p);
      g.(thought := g.thought + p.text, env := if Read(res) && g.env.None? then Some(e) else g.env,
         dropped := g.dropped + if res.SigInvalid? then 1 else 0)
    case TextOf(text) => g.(text := g.text + text)
    case CallOf(id, p) =>
      g.(calls := g.calls + [ReadCall(j, id, p)],
         dropped := g.dropped + if PartSignature(j, p).1.SigInvalid? then 1 else 0)
    case Unsupported => g
  }

  /** envelope.reasoning. */
  function ReasoningOf(e: Envelope, visible: string): Reasoning {
    var content := if e.content.Some? then e.content.value else visible;
    Reasoning(content, e.signature, e.metadata, e.tokens, e.provider, e.model)
  }

  function TurnOf(g: Gathered): Turn {
    Turn(g.text,
         if g.env.Some? then Some(ReasoningOf(g.env.value, g.thought))
         else if g.thought != "" then Some(Reasoning(g.thought, "", "", 0, "", ""))
         else None,
         g.calls)
  }

  lemma {:induction false} GatherNext(j: Codec, before: seq<SessionPart>, part: SessionPart)
    ensures Gather(j, before + [part]) == GatherPart(j, Gather(j, before), part)
  {
    assert (before + [part])[..|before|] == before;
  }

  /** Everything that is encoded is read back. */
  predicate Readable(j: Codec, t: Turn, hidden: bool) {
    && (forall i | 0 <= i < |t.calls| :: Faithful(j, CallEnvelope(t.calls[i])) && Fits(j, CallEnvelope(t.calls[i])))
    && (t.reasoning.Some? ==>
          var e := ThoughtEnvelope(t.reasoning.value, hidden); Faithful(j, e) && Fits(j, e))
  }

  lemma CallReadable(j: Codec, tc: ToolCall, first: bool)
    requires Faithful(j, CallEnvelope(tc)) && Fits(j, CallEnvelope(tc))
    ensures !PartSignature(j, StoredCall(j, tc, first)).1.SigInvalid?
  {
    if tc.signature != "" && !(tc.signatureProvider == GEMINI && NativeBytes(tc.signature).Some?) {
      EnvelopeIsRead(j, BLANK, CallEnvelope(tc));
      EnvelopeIsRead(j, BLANK.(thoughtSignature := Placeholder()), CallEnvelope(tc));
    }
  }

  /** The calls as they are read back. */
  function ReadCalls(j: Codec, calls: seq<ToolCall>): seq<ToolCall> {
    seq(|calls|, i requires 0 <= i < |calls| => ReadCall(j, calls[i].id, StoredCall(j, calls[i], i == 0)))
  }

  lemma {:induction false} GatherCalls(j: Codec, before: seq<SessionPart>, calls: seq<ToolCall>)
    requires forall i | 0 <= i < |calls| :: Faithful(j, CallEnvelope(calls[i])) && Fits(j, CallEnvelope(calls[i]))
    ensures Gather(j, before + CallParts(j, calls)) ==
      var g := Gather(j, before); g.(calls := g.calls + ReadCalls(j, calls))
  {
    hide Gather, StoredCall, PartSignature, ReadCall, Faithful, Fits;
    var n := |calls| - 1;
    if calls == [] {
      assert before + CallParts(j, calls) == before;
      assert Gather(j, before).calls + ReadCalls(j, calls) == Gather(j, before).calls;
    } else {
      var part := CallParts(j, calls)[n];
      GatherCalls(j, before, calls[..n]);
      assert CallParts(j, calls) == CallParts(j, calls[..n]) + [part];
      assert before + CallParts(j, calls) == before + CallParts(j, calls[..n]) + [part];
      GatherNext(j, before + CallParts(j, calls[..n]), part);
      CallReadable(j, calls[n], n == 0);
      assert ReadCalls(j, calls) == ReadCalls(j, calls[..n]) + [ReadCall(j, part.id, part.p)];
    }
  }

  lemma ThoughtReadable(j: Codec, r: Reasoning, hidden: bool)
    requires Faithful(j, ThoughtEnvelope(r, hidden)) && Fits(j, ThoughtEnvelope(r, hidden))
    requires ThoughtPart(j, r, hidden).Some?
    ensures !PartSignature(j, ThoughtPart(j, r, hidden).value).1.SigInvalid?
  {
    EnvelopeIsRead(j, if hidden then BLANK else BLANK.(text := r.content), ThoughtEnvelope(r, hidden));
  }

  /** A turn stored and read again: its text and all its calls are there in order, each with what is left of its
      signature, no signature is given up as damaged, and the reasoning is what its thought part gives. */
  lemma {:induction false} TurnIsRead(j: Codec, t: Turn, hidden: bool)
    requires Readable(j, t, hidden)
    ensures var g, thought := Gather(j, SessionParts(j, t, hidden)), StoredThought(j, t, hidden);
      var reasoning := if thought.None? then None else ReadThought(j, thought.value);
      g.dropped == 0 && TurnOf(g) == Turn(t.content, reasoning, ReadCalls(j, t.calls))
  {
    hide StoredCall, PartSignature, ReadCall, Faithful, Fits, CallParts, Gather;
    var thought := StoredThought(j, t, hidden);
    var front := match thought case None => [] case Some(p) => [ThoughtOf(p)];
    var text := if t.content != "" then [TextOf(t.content)] else [];
    GatherNone(j);
    if thought.Some? {
      ThoughtReadable(j, t.reasoning.value, hidden);
      GatherNext(j, [], front[0]);
      assert [] + front == front && "" + thought.value.text == thought.value.text;
    }
    if t.content != "" {
      GatherNext(j, front, TextOf(t.content));
      assert "" + t.content == t.content;
    } else {
      assert front + text == front;
    }
    GatherCalls(j, front + text, t.calls);
    assert [] + ReadCalls(j, t.calls) == ReadCalls(j, t.calls);
  }

  lemma GatherNone(j: Codec)
    ensures Gather(j, []) == NOTHING
  {
  }

  /** Reasoning of any other provider than Gemini comes back with the turn if and only if the turn is not both hidden
      and nothing but thought. */
  lemma {:induction false} ReasoningComesBack(j: Codec, t: Turn, hidden: bool)
    requires Readable(j, t, hidden) && t.reasoning.Some? && HasContent(t.reasoning.value)
    requires !(t.reasoning.value.provider == GEMINI && t.reasoning.value.metadata == "")
    ensures TurnOf(Gather(j, SessionParts(j, t, hidden))).reasoning == t.reasoning <==> !(hidden && ThoughtOnly(t))
    ensures hidden ==> forall k | 0 <= k < |SessionParts(j, t, hidden)| ::
      var part := SessionParts(j, t, hidden)[k]; part.ThoughtOf? ==> part.p.text == ""
  {
    TurnIsRead(j, t, hidden);
    ThoughtRoundTrip(j, t.reasoning.value, hidden);
  }

  // ---- The parts and messages that are written ----

  class Part {
    var text: string
    var thoughtSignature: seq<byte>
    var metadata: map<string, Meta>

    constructor ()
      ensures View() == BLANK
    {
      text, thoughtSignature, metadata := "", [], map[];
    }

    function View(): Stored
      reads this
    {
      Stored(text, thoughtSignature, metadata)
    }

    /** setEnvelope. */
    method SetEnvelope(j: Codec, e: Envelope)
      modifies this
      ensures View() == WithEnvelope(j, old(View()), e)
    {
      metadata := metadata[METADATA_KEY := Text(Encode(EncodeEnvelope(j, e)))];
    }

    /** attachCallSignature, on the blank part functionCallPart makes. */
    method AttachCallSignature(j: Codec, tc: ToolCall)
      requires View() == BLANK
      modifies this
      ensures View() == StoredCall(j, tc, false)
    {
      if tc.signature == "" { return; }
      if tc.signatureProvider == GEMINI {
        var raw := NativeBytes(tc.signature);
        if raw.Some? {
          thoughtSignature := raw.value;
          return;
        }
      }
      SetEnvelope(j, CallEnvelope(tc));
    }
  }

  /** The tool-call loop of convert. */
  method StoreCalls(j: Codec, calls: seq<ToolCall>) returns (parts: seq<Part>)
    ensures |parts| == |calls| && fresh(set p | p in parts)
    ensures forall i | 0 <= i < |calls| :: parts[i].View() == StoredCall(j, calls[i], i == 0)
  {
    parts := [];
    for i := 0 to |calls|
      invariant |parts| == i && fresh(set p | p in parts)
      invariant forall k | 0 <= k < i :: parts[k].View() == StoredCall(j, calls[k], k == 0)
    {
      var part := new Part();
      part.AttachCallSignature(j, calls[i]);
      if i == 0 && part.thoughtSignature == [] {
        part.thoughtSignature := Placeholder();
      }
      parts := parts + [part];
    }
  }

  /** The parts that convert stores a turn in. */
  method Convert(j: Codec, t: Turn, hidden: bool) returns (parts: seq<SessionPart>)
    ensures parts == SessionParts(j, t, hidden)
  {
    hide CallParts, ThoughtPart;
    parts := [];
    var thoughtOnly := t.content == "" && |t.calls| == 0;
    if (!hidden || !thoughtOnly) && t.reasoning.Some? {
      var part := ThoughtPart(j, t.reasoning.value, hidden);
      if part.Some? {
        parts := parts + [ThoughtOf(part.value)];
      }
    }
    if t.content != "" {
      parts := parts + [TextOf(t.content)];
    }
    var calls := ConvertCalls(j, t.calls);
    parts := parts + calls;
  }

  method ConvertCalls(j: Codec, calls: seq<ToolCall>) returns (parts: seq<SessionPart>)
    ensures parts == CallParts(j, calls)
  {
    hide StoredCall;
    parts := [];
    var stored := StoreCalls(j, calls);
    for i := 0 to |stored|
      invariant parts == CallParts(j, calls)[..i]
    {
      parts := parts + [CallOf(calls[i].id, stored[i].View())];
    }
  }

  /** modelContent, but for IDs it makes up. A turn in which nothing is found gives no message. */
  method ModelContent(j: Codec, parts: seq<SessionPart>) returns (ok: bool, turn: Option<Turn>, dropped: nat)
    ensures ok <==> Unsupported !in parts
    ensures ok ==> var t := TurnOf(Gather(j, parts));
      turn == if ThoughtOnly(t) && t.reasoning.None? then None else Some(t)
    ensures ok ==> dropped == Gather(j, parts).dropped
  {
    var text, thought := "", "";
    var thoughtEnv: Option<Envelope> := None;
    var calls: seq<ToolCall> := [];
    dropped := 0;
    for i := 0 to |parts|
      invariant Unsupported !in parts[..i]
      invariant Gather(j, parts[..i]) == Gathered(text, thought, thoughtEnv, calls, dropped)
    {
      GatherNext(j, parts[..i], parts[i]);
      assert parts[..i + 1] == parts[..i] + [parts[i]];
      match parts[i]
      case Unsupported => return false, None, dropped;
      case CallOf(id, p) =>
        var (env, res) := PartSignature(j, p);
        var tc := ToolCall(id, "", "");
        if res == SigInvalid {
          dropped := dropped + 1;
        } else if res == SigEnvelope || res == SigNative {
          tc := ToolCall(id, env.signature, env.provider);
        }
        calls := calls + [tc];
      case ThoughtOf(p) =>
        thought := thought + p.text;
        var (env, res) := PartSignature(j, p);
        if res == SigInvalid {
          dropped := dropped + 1;
        } else if res != SigNone && thoughtEnv.None? {
          thoughtEnv := Some(env);
        }
      case TextOf(s) => text := text + s;
    }
    assert parts[..|parts|] == parts;
    var reasoning := None;
    if thoughtEnv.Some? {
      reasoning := Some(ReasoningOf(thoughtEnv.value, thought));
    } else if |thought| > 0 {
      reasoning := Some(Reasoning(thought, "", "", 0, "", ""));
    }
    if text == "" && |calls| == 0 && reasoning.None? { return true, None, dropped; }
    return true, Some(Turn(text, reasoning, calls)), dropped;
  }

  /** A message; its calls are in an array the caller may share. */
  datatype Message = Message(content: string, reasoning: Option<Reasoning>, calls: array<ToolCall>)

  /** ReplayableBy. */
  predicate ReplayableBy(r: Reasoning, p: string) {
    r.provider == "" || r.provider == p
  }

  predicate Foreign(m: Message, p: string)
    reads m.calls
  {
    || (m.reasoning.Some? && !ReplayableBy(m.reasoning.value, p))
    || exists k | 0 <= k < m.calls.Length :: KeptFor(m.calls[k], p) != m.calls[k]
  }

  predicate Unsigned(tc: ToolCall) {
    tc.signature == "" && tc.signatureProvider == ""
  }

  /** `r` is `m` without what `p` must not see, in storage of its own where calls differ; `m` itself if nothing does. */
  twostate predicate Cleaned(m: Message, new r: Message, p: string)
    reads m.calls, r.calls
  {
    && r.content == m.content
    && r.reasoning == (if m.reasoning.Some? && m.reasoning.value.provider !in ["", p] then None else m.reasoning)
    && r.calls.Length == m.calls.Length
    && (forall k | 0 <= k < m.calls.Length ::
         && r.calls[k].id == m.calls[k].id
         && (if m.calls[k].signature != "" && m.calls[k].signatureProvider !in ["", p] then Unsigned(r.calls[k])
             else r.calls[k] == m.calls[k]))
    && (r.calls == m.calls || fresh(r.calls))
    && (!Foreign(m, p) ==> r == m)
  }

  /** DropForeignReplay. It writes to nothing that existed before. */
  method DropForeignReplay(messages: seq<Message>, p: string) returns (out: seq<Message>)
    ensures |out| == |messages|
    ensures forall i | 0 <= i < |messages| :: Cleaned(messages[i], out[i], p)
  {
    out := messages;
    for i := 0 to |messages|
      invariant |out| == |messages|
      invariant forall k | 0 <= k < i :: Cleaned(messages[k], out[k], p)
      invariant forall k | i <= k < |messages| :: out[k] == messages[k]
    {
      var cleaned := CleanOne(messages[i], p);
      out := out[i := cleaned];
    }
  }

  method CleanOne(m: Message, p: string) returns (r: Message)
    ensures Cleaned(m, r, p)
  {
    r := m;
    if m.reasoning.Some? && !ReplayableBy(m.reasoning.value, p) {
      r := r.(reasoning := None);
    }
    var copied := false;
    for k := 0 to m.calls.Length
      invariant r.content == m.content && r.calls.Length == m.calls.Length
      invariant r.reasoning == (if m.reasoning.Some? && !ReplayableBy(m.reasoning.value, p) then None else m.reasoning)
      invariant forall h | 0 <= h < k :: r.calls[h] == KeptFor(m.calls[h], p)
      invariant forall h | k <= h < m.calls.Length :: r.calls[h] == m.calls[h]
      invariant copied ==> fresh(r.calls) && exists h | 0 <= h < k :: KeptFor(m.calls[h], p) != m.calls[h]
      invariant !copied ==> r.calls == m.calls
    {
      if !SignatureReplayableBy(r.calls[k], p) && r.calls[k].signature != "" {
        if !copied {
          var copy := new ToolCall[m.calls.Length](h requires 0 <= h < m.calls.Length reads m.calls => m.calls[h]);
          r := r.(calls := copy);
          copied := true;
        }
        r.calls[k] := r.calls[k].(signature := "", signatureProvider := "");
      }
    }
  }
}

/** Making every assistant tool call be followed by exactly one result (llmadk/request.go, repairToolResults). */
module Repair {
  import opened Options

  datatype Role = System | User | Assistant | ToolRole

  datatype Call = Call(id: string, fn: Option<string>)

  datatype Message = Message(role: Role, content: string, calls: seq<Call>, callID: string, name: string)

  const PENDING := "{\"status\":\"pending\",\"detail\":\"no result yet; do not call the tool again unless asked\"}"

  predicate IsTool(m: Message) { m.role.ToolRole? }

  predicate IsCaller(m: Message) { m.role.Assistant? && m.calls != [] }

  function CallName(c: Call): string {
    match c.fn case None => "" case Some(name) => name
  }

  function Pending(c: Call): Message {
    Message(ToolRole, PENDING, [], c.id, CallName(c))
  }

  // ---- Specification ----

  /** The position of the last result for `id`. */
  function Latest(results: seq<Message>, id: string): (k: Option<nat>)
    ensures k.Some? ==> k.value < |results| && results[k.value].callID == id
    ensures forall i | 0 <= i < |results| && results[i].callID == id :: k.Some? && i <= k.value
  {
    if results == [] then None
    else if results[|results| - 1].callID == id then Some(|results| - 1)
    else Latest(results[..|results| - 1], id)
  }

  /** What follows a call: its last result, or the pending notice. */
  function Answer(c: Call, results: seq<Message>): Message {
    match Latest(results, c.id) case Some(k) => results[k] case None => Pending(c)
  }

  function Answers(calls: seq<Call>, results: seq<Message>): seq<Message> {
    seq(|calls|, i requires 0 <= i < |calls| => Answer(calls[i], results))
  }

  function Asked(calls: seq<Call>): set<string> {
    set i | 0 <= i < |calls| :: calls[i].id
  }

  function Unasked(calls: seq<Call>, results: seq<Message>): nat {
    if results == [] then 0
    else Unasked(calls, results[..|results| - 1]) + if results[|results| - 1].callID in Asked(calls) then 0 else 1
  }

  /** How many tool messages `msgs` starts with. */
  function LeadingTools(msgs: seq<Message>): (n: nat)
    ensures n <= |msgs| && (forall i | 0 <= i < n :: IsTool(msgs[i])) && (n < |msgs| ==> !IsTool(msgs[n]))
  {
    if msgs == [] || !IsTool(msgs[0]) then 0 else 1 + LeadingTools(msgs[1..])
  }

  function Repaired(msgs: seq<Message>): seq<Message>
    decreases |msgs|
  {
    if msgs == [] then []
    else if IsTool(msgs[0]) then Repaired(msgs[1..])
    else if !IsCaller(msgs[0]) then [msgs[0]] + Repaired(msgs[1..])
    else
      var n := LeadingTools(msgs[1..]);
      [msgs[0]] + Answers(msgs[0].calls, msgs[1..1 + n]) + Repaired(msgs[1 + n..])
  }

  function Dropped(msgs: seq<Message>): nat
    decreases |msgs|
  {
    if msgs == [] then 0
    else if IsTool(msgs[0]) then 1 + Dropped(msgs[1..])
    else if !IsCaller(msgs[0]) then Dropped(msgs[1..])
    else
      var n := LeadingTools(msgs[1..]);
      Unasked(msgs[0].calls, msgs[1..1 + n]) + Dropped(msgs[1 + n..])
  }

  // ---- The code ----

  method RepairToolResults(msgs: seq<Message>) returns (out: seq<Message>, dropped: nat)
    ensures out == Repaired(msgs) && dropped == Dropped(msgs)
  {
    hide Repaired, Dropped, Answers, Unasked, LeadingTools;
    out, dropped := [], 0;
    var i := 0;
    assert msgs[0..] == msgs;
    while i < |msgs|
      invariant i <= |msgs|
      invariant Repaired(msgs) == out + Repaired(msgs[i..]) && Dropped(msgs) == dropped + Dropped(msgs[i..])
      decreases |msgs| - i
    {
      var msg := msgs[i];
      RepairStep(msgs, i);
      i := i + 1;
      if IsTool(msg) {
        dropped := dropped + 1;
        continue;
      }
      ghost var before := out;
      out := out + [msg];
      if !IsCaller(msg) {
        Regroup(before, msg, [], Repaired(msgs[i..]));
        continue;
      }
      var j := i;
      while j < |msgs| && IsTool(msgs[j])
        invariant i <= j <= |msgs| && forall k | i <= k < j :: IsTool(msgs[k])
      {
        j := j + 1;
      }
      LeadingToolsIs(msgs[i..], j - i);
      var results := msgs[i..j];
      var answers, unasked := Pair(msg.calls, results);
      Regroup(before, msg, answers, Repaired(msgs[j..]));
      out := out + answers;
      dropped := dropped + unasked;
      i := j;
    }
    NothingLeft(msgs[i..]);
  }

  lemma Regroup(before: seq<Message>, m: Message, answers: seq<Message>, rest: seq<Message>)
    ensures before + ([m] + answers + rest) == before + [m] + answers + rest
    ensures before + ([m] + rest) == before + [m] + rest
  {
  }

  lemma NothingLeft(msgs: seq<Message>)
    requires msgs == []
    ensures Repaired(msgs) == [] && Dropped(msgs) == 0
  {
  }

  lemma RepairStep(msgs: seq<Message>, i: nat)
    requires i < |msgs|
    ensures var m, n := msgs[i], LeadingTools(msgs[i + 1..]);
      && i + 1 + n <= |msgs|
      && Repaired(msgs[i..]) == (if IsTool(m) then Repaired(msgs[i + 1..])
                                 else if !IsCaller(m) then [m] + Repaired(msgs[i + 1..])
                                 else [m] + Answers(m.calls, msgs[i + 1..i + 1 + n]) + Repaired(msgs[i + 1 + n..]))
      && Dropped(msgs[i..]) == (if IsTool(m) then 1 + Dropped(msgs[i + 1..])
                                else if !IsCaller(m) then Dropped(msgs[i + 1..])
                                else Unasked(m.calls, msgs[i + 1..i + 1 + n]) + Dropped(msgs[i + 1 + n..]))
  {
    var n := LeadingTools(msgs[i + 1..]);
    assert msgs[i..][1..] == msgs[i + 1..];
    assert msgs[i..][1..1 + n] == msgs[i + 1..i + 1 + n] && msgs[i..][1 + n..] == msgs[i + 1 + n..];
  }

  lemma {:induction false} LeadingToolsIs(msgs: seq<Message>, n: nat)
    requires n <= |msgs| && (forall i | 0 <= i < n :: IsTool(msgs[i])) && (n < |msgs| ==> !IsTool(msgs[n]))
    ensures LeadingTools(msgs) == n
  {
    if n > 0 { LeadingToolsIs(msgs[1..], n - 1); }
  }

  /** The three loops over one assistant message's calls and results. */
  method Pair(calls: seq<Call>, results: seq<Message>) returns (answers: seq<Message>, unasked: nat)
    ensures answers == Answers(calls, results) && unasked == Unasked(calls, results)
  {
    var latest: map<string, nat> := map[];
    for k := 0 to |results|
      invariant forall id :: Latest(results[..k], id) == if id in latest then Some(latest[id]) else None
    {
      assert results[..k + 1][..k] == results[..k];
      latest := latest[results[k].callID := k];
    }
    assert results[..|results|] == results;
    answers := [];
    var answered: set<string> := {};
    for c := 0 to |calls|
      invariant answers == Answers(calls, results)[..c] && answered == Asked(calls[..c])
    {
      var call := calls[c];
      assert Latest(results, call.id) == if call.id in latest then Some(latest[call.id]) else None;
      if call.id in latest {
        answers := answers + [results[latest[call.id]]];
      } else {
        var name := "";
        if call.fn.Some? { name := call.fn.value; }
        answers := answers + [Message(ToolRole, PENDING, [], call.id, name)];
      }
      AskedNext(calls, c);
      answered := answered + {call.id};
    }
    assert calls[..|calls|] == calls;
    unasked := 0;
    for k := 0 to |results|
      invariant unasked == Unasked(calls, results[..k])
    {
      assert results[..k + 1][..k] == results[..k];
      if results[k].callID !in answered { unasked := unasked + 1; }
    }
  }

  lemma AskedNext(calls: seq<Call>, c: nat)
    requires c < |calls|
    ensures Asked(calls[..c + 1]) == Asked(calls[..c]) + {calls[c].id}
  {
    assert calls[..c + 1][c] == calls[c];
    forall id | id in Asked(calls[..c]) ensures id in Asked(calls[..c + 1]) {
      var i :| 0 <= i < c && calls[..c][i].id == id;
      assert calls[..c + 1][i].id == id;
    }
  }

  // ---- What the result promises ----

  /** Position `i` of `out` holds an assistant message followed at once by one result per call, in call order. */
  ghost predicate AnsweredAt(out: seq<Message>, i: nat)
    requires i < |out|
  {
    i + |out[i].calls| < |out| && forall c | 0 <= c < |out[i].calls| :: AnswersCall(out, i, c)
  }

  /** The message at `i + 1 + c` is a tool message for call c of message i. */
  ghost predicate AnswersCall(out: seq<Message>, i: nat, c: nat)
    requires i < |out| && c < |out[i].calls| && i + |out[i].calls| < |out|
  {
    IsTool(out[i + 1 + c]) && out[i + 1 + c].callID == out[i].calls[c].id
  }

  ghost predicate WellAnswered(out: seq<Message>) {
    && (forall i | 0 <= i < |out| && IsCaller(out[i]) :: AnsweredAt(out, i))
    && (forall j | 0 <= j < |out| && IsTool(out[j]) :: Owned(out, j))
  }

  /** Tool message j answers a call of an assistant message before it. */
  ghost predicate Owned(out: seq<Message>, j: nat)
    requires j < |out|
  {
    exists i :: 0 <= i < j && IsCaller(out[i]) && j <= i + |out[i].calls|
  }

  lemma AnswersAreTools(calls: seq<Call>, results: seq<Message>)
    requires forall k | 0 <= k < |results| :: IsTool(results[k])
    ensures forall c | 0 <= c < |calls| ::
      IsTool(Answers(calls, results)[c]) && Answers(calls, results)[c].callID == calls[c].id
  {
  }

  /** Every assistant message with n calls is followed at once by exactly n tool messages, one per call and in call
      order, and there is no other tool message. */
  lemma {:induction false} RepairedWellAnswered(msgs: seq<Message>)
    ensures WellAnswered(Repaired(msgs))
    ensures Repaired(msgs) != [] ==> !IsTool(Repaired(msgs)[0])
    decreases |msgs|
  {
    hide WellAnswered, AnsweredAt, Owned, Answer;
    if msgs == [] {
      NothingAnswered();
    } else if IsTool(msgs[0]) {
      RepairedWellAnswered(msgs[1..]);
    } else if !IsCaller(msgs[0]) {
      RepairedWellAnswered(msgs[1..]);
      GroupWellAnswered(msgs[0], [], Repaired(msgs[1..]));
      assert [msgs[0]] + [] == [msgs[0]];
    } else {
      var n := LeadingTools(msgs[1..]);
      GroupSplits(msgs);
      RepairedWellAnswered(msgs[1 + n..]);
      AnswersAreTools(msgs[0].calls, msgs[1..1 + n]);
      GroupWellAnswered(msgs[0], Answers(msgs[0].calls, msgs[1..1 + n]), Repaired(msgs[1 + n..]));
    }
  }

  lemma NothingAnswered()
    ensures WellAnswered([])
  {
  }

  lemma GroupWellAnswered(m: Message, answers: seq<Message>, rest: seq<Message>)
    requires !IsTool(m) && |answers| == (if IsCaller(m) then |m.calls| else 0)
    requires forall c | 0 <= c < |answers| :: IsTool(answers[c]) && answers[c].callID == m.calls[c].id
    requires WellAnswered(rest)
    ensures WellAnswered([m] + answers + rest)
  {
    var front := [m] + answers;
    var out := front + rest;
    forall i | 0 <= i < |out| && IsCaller(out[i]) ensures AnsweredAt(out, i) {
      if i >= |front| { AnsweredShifts(front, rest, i - |front|); }
    }
    forall j | 0 <= j < |out| && IsTool(out[j]) ensures Owned(out, j) {
      if j >= |front| {
        OwnedShifts(front, rest, j - |front|);
      } else {
        assert out[0] == m && IsCaller(m);
      }
    }
  }

  lemma AnsweredShifts(front: seq<Message>, rest: seq<Message>, i: nat)
    requires i < |rest| && AnsweredAt(rest, i)
    ensures AnsweredAt(front + rest, |front| + i)
  {
    var out, j := front + rest, |front| + i;
    forall c | 0 <= c < |out[j].calls| ensures AnswersCall(out, j, c) {
      assert AnswersCall(rest, i, c);
      assert out[j + 1 + c] == rest[i + 1 + c];
    }
  }

  lemma OwnedShifts(front: seq<Message>, rest: seq<Message>, j: nat)
    requires j < |rest| && Owned(rest, j)
    ensures Owned(front + rest, |front| + j)
  {
    var i :| 0 <= i < j && IsCaller(rest[i]) && j <= i + |rest[i].calls|;
    assert (front + rest)[|front| + i] == rest[i];
  }

  function NonTools(msgs: seq<Message>): seq<Message> {
    if msgs == [] then [] else (if IsTool(msgs[0]) then [] else [msgs[0]]) + NonTools(msgs[1..])
  }

  lemma {:induction false} NonToolsSkip(tools: seq<Message>, rest: seq<Message>)
    requires forall k | 0 <= k < |tools| :: IsTool(tools[k])
    ensures NonTools(tools + rest) == NonTools(rest)
  {
    if tools == [] {
      assert tools + rest == rest;
    } else {
      assert (tools + rest)[1..] == tools[1..] + rest;
      NonToolsSkip(tools[1..], rest);
    }
  }

  lemma NonToolsHead(m: Message, tools: seq<Message>, rest: seq<Message>)
    requires !IsTool(m) && forall k | 0 <= k < |tools| :: IsTool(tools[k])
    ensures NonTools([m] + tools + rest) == [m] + NonTools(rest)
  {
    assert ([m] + tools + rest)[1..] == tools + rest;
    NonToolsSkip(tools, rest);
  }

  predicate AllTools(msgs: seq<Message>) {
    forall k | 0 <= k < |msgs| :: IsTool(msgs[k])
  }

  /** How a caller's group splits off. */
  lemma GroupSplits(msgs: seq<Message>)
    requires msgs != [] && IsCaller(msgs[0])
    ensures var n := LeadingTools(msgs[1..]);
      && msgs == [msgs[0]] + msgs[1..1 + n] + msgs[1 + n..]
      && AllTools(msgs[1..1 + n])
  {
    var n := LeadingTools(msgs[1..]);
    assert msgs[1..1 + n] == msgs[1..][..n];
  }

  /** The other messages are unchanged, in order. */
  lemma {:induction false} RepairedKeepsOthers(msgs: seq<Message>)
    ensures NonTools(Repaired(msgs)) == NonTools(msgs)
    decreases |msgs|
  {
    if msgs == [] {
    } else if IsTool(msgs[0]) {
      RepairedKeepsOthers(msgs[1..]);
    } else if !IsCaller(msgs[0]) {
      RepairedKeepsOthers(msgs[1..]);
      NonToolsHead(msgs[0], [], Repaired(msgs[1..]));
      assert [msgs[0]] + [] + Repaired(msgs[1..]) == Repaired(msgs);
    } else {
      hide NonTools;
      var n := LeadingTools(msgs[1..]);
      GroupSplits(msgs);
      RepairedKeepsOthers(msgs[1 + n..]);
      AnswersAreTools(msgs[0].calls, msgs[1..1 + n]);
      NonToolsHead(msgs[0], msgs[1..1 + n], msgs[1 + n..]);
      NonToolsHead(msgs[0], Answers(msgs[0].calls, msgs[1..1 + n]), Repaired(msgs[1 + n..]));
    }
  }

  // ---- Accounting for the input's tool messages ----

  datatype Verdict = Answering | Superseded | Orphan

  /** Of the results after an assistant message: one that answers no call, one that a later one replaces, or the
      answer. */
  function Judge(calls: seq<Call>, results: seq<Message>, k: nat): Verdict
    requires k < |results|
  {
    if results[k].callID !in Asked(calls) then Orphan
    else if Latest(results, results[k].callID) == Some(k) then Answering
    else Superseded
  }

  function GroupVerdicts(calls: seq<Call>, results: seq<Message>): seq<Verdict> {
    seq(|results|, k requires 0 <= k < |results| => Judge(calls, results, k))
  }

  /** One verdict per tool message of the input, in order; those not right after a caller are orphans. */
  function Verdicts(msgs: seq<Message>): seq<Verdict>
    decreases |msgs|
  {
    if msgs == [] then []
    else if IsTool(msgs[0]) then [Orphan] + Verdicts(msgs[1..])
    else if !IsCaller(msgs[0]) then Verdicts(msgs[1..])
    else
      var n := LeadingTools(msgs[1..]);
      GroupVerdicts(msgs[0].calls, msgs[1..1 + n]) + Verdicts(msgs[1 + n..])
  }

  function Tally(vs: seq<Verdict>, v: Verdict): nat {
    multiset(vs)[v]
  }

  function ToolCount(msgs: seq<Message>): nat {
    if msgs == [] then 0 else (if IsTool(msgs[0]) then 1 else 0) + ToolCount(msgs[1..])
  }

  lemma {:induction false} ToolCountSkip(tools: seq<Message>, rest: seq<Message>)
    requires forall k | 0 <= k < |tools| :: IsTool(tools[k])
    ensures ToolCount(tools + rest) == |tools| + ToolCount(rest)
  {
    if tools == [] {
      assert tools + rest == rest;
    } else {
      assert (tools + rest)[1..] == tools[1..] + rest;
      ToolCountSkip(tools[1..], rest);
    }
  }

  lemma {:induction false} OrphansAre(calls: seq<Call>, results: seq<Message>, n: nat)
    requires n <= |results|
    ensures Unasked(calls, results[..n]) == Tally(GroupVerdicts(calls, results)[..n], Orphan)
  {
    var vs := GroupVerdicts(calls, results);
    if n > 0 {
      OrphansAre(calls, results, n - 1);
      assert results[..n][..n - 1] == results[..n - 1];
      assert vs[..n] == vs[..n - 1] + [vs[n - 1]];
    } else {
      assert vs[..0] == [];
    }
  }

  lemma GroupAccounted(m: Message, results: seq<Message>, rest: seq<Message>)
    requires IsCaller(m) && forall k | 0 <= k < |results| :: IsTool(results[k])
    ensures Unasked(m.calls, results) == Tally(GroupVerdicts(m.calls, results), Orphan)
    ensures ToolCount([m] + results + rest) == |results| + ToolCount(rest)
  {
    OrphansAre(m.calls, results, |results|);
    assert results[..|results|] == results
      && GroupVerdicts(m.calls, results)[..|results|] == GroupVerdicts(m.calls, results);
    assert ([m] + results + rest)[1..] == results + rest;
    ToolCountSkip(results, rest);
  }

  lemma {:induction false} VerdictsCount(msgs: seq<Message>)
    ensures Dropped(msgs) == Tally(Verdicts(msgs), Orphan) && ToolCount(msgs) == |Verdicts(msgs)|
    decreases |msgs|
  {
    if msgs == [] {
    } else if !IsCaller(msgs[0]) {
      VerdictsCount(msgs[1..]);
    } else {
      hide ToolCount, GroupVerdicts, Unasked;
      var n := LeadingTools(msgs[1..]);
      GroupSplits(msgs);
      VerdictsCount(msgs[1 + n..]);
      GroupAccounted(msgs[0], msgs[1..1 + n], msgs[1 + n..]);
      VerdictsLength(msgs[0].calls, msgs[1..1 + n]);
    }
  }

  lemma VerdictsLength(calls: seq<Call>, results: seq<Message>)
    ensures |GroupVerdicts(calls, results)| == |results|
  {
  }

  lemma {:induction false} ThreeVerdicts(vs: seq<Verdict>)
    ensures |vs| == Tally(vs, Answering) + Tally(vs, Superseded) + Tally(vs, Orphan)
  {
    if vs != [] {
      ThreeVerdicts(vs[1..]);
      assert vs == [vs[0]] + vs[1..];
      assert multiset(vs) == multiset{vs[0]} + multiset(vs[1..]);
      assert vs[0] == Answering || vs[0] == Superseded || vs[0] == Orphan;
    }
  }

  /** Exactly the orphans are counted as dropped: every input tool message is the answer to a call, a superseded
      duplicate, or dropped. */
  lemma ToolsAccounted(msgs: seq<Message>)
    ensures Dropped(msgs) == Tally(Verdicts(msgs), Orphan)
    ensures ToolCount(msgs) == |Verdicts(msgs)|
    ensures ToolCount(msgs) == Tally(Verdicts(msgs), Answering) + Tally(Verdicts(msgs), Superseded) + Dropped(msgs)
  {
    VerdictsCount(msgs);
    ThreeVerdicts(Verdicts(msgs));
  }

  /** A tool message that tells the model, under the call's ID and function, that its result is pending. */
  predicate IsNotice(m: Message, c: Call) {
    && m.role.ToolRole? && m.callID == c.id && m.calls == [] && m.content == PENDING
    && match c.fn case None => m.name == "" case Some(name) => m.name == name
  }

  /** An answering result is what every call with its ID gets; a call that no result answers gets the pending notice. */
  lemma AnswersUsed(calls: seq<Call>, results: seq<Message>, c: nat)
    requires c < |calls|
    ensures forall k | 0 <= k < |results| && results[k].callID == calls[c].id
      && Judge(calls, results, k) == Answering ::
      Answers(calls, results)[c] == results[k]
    ensures (forall k | 0 <= k < |results| :: results[k].callID != calls[c].id) ==>
      IsNotice(Answers(calls, results)[c], calls[c])
    ensures (exists k :: 0 <= k < |results| && results[k].callID == calls[c].id) ==>
      exists k :: 0 <= k < |results| && Judge(calls, results, k) == Answering
        && Answers(calls, results)[c] == results[k] && forall j | k < j < |results| :: results[j].callID != calls[c].id
  {
    if exists k :: 0 <= k < |results| && results[k].callID == calls[c].id {
      var k := Latest(results, calls[c].id).value;
      assert Judge(calls, results, k) == Answering;
    }
  }

  // ---- A second pass ----

  /** Calls of one message that share an ID no result answers are for functions of one name. */
  ghost predicate SameNames(calls: seq<Call>, results: seq<Message>) {
    forall c, d | 0 <= c < |calls| && 0 <= d < |calls| && calls[c].id == calls[d].id
      && Latest(results, calls[c].id).None? ::
      CallName(calls[c]) == CallName(calls[d])
  }

  ghost predicate Stable(msgs: seq<Message>)
    decreases |msgs|
  {
    if msgs == [] then true
    else if !IsCaller(msgs[0]) then Stable(msgs[1..])
    else
      var n := LeadingTools(msgs[1..]);
      SameNames(msgs[0].calls, msgs[1..1 + n]) && Stable(msgs[1 + n..])
  }

  /** On a second pass a call gets the first-pass answer of the last call with its ID. */
  lemma AgainFromLast(calls: seq<Call>, results: seq<Message>, c: nat) returns (d: nat)
    requires c < |calls| && forall k | 0 <= k < |results| :: IsTool(results[k])
    ensures d < |calls| && calls[d].id == calls[c].id
    ensures Answer(calls[c], Answers(calls, results)) == Answer(calls[d], results)
    ensures forall e | 0 <= e < |calls| && calls[e].id == calls[c].id ::
      Answer(calls[e], Answers(calls, results)) == Answer(calls[d], results)
  {
    var once := Answers(calls, results);
    AnswersAreTools(calls, results);
    assert once[c].callID == calls[c].id;
    d := Latest(once, calls[c].id).value;
    assert once[d].callID == calls[d].id;
  }

  lemma AnswersAgain(calls: seq<Call>, results: seq<Message>)
    requires forall k | 0 <= k < |results| :: IsTool(results[k])
    ensures Answers(calls, Answers(calls, results)) == Answers(calls, results) <==> SameNames(calls, results)
  {
    var once := Answers(calls, results);
    var twice := Answers(calls, once);
    if SameNames(calls, results) {
      forall c | 0 <= c < |calls| ensures twice[c] == once[c] {
        var d := AgainFromLast(calls, results, c);
        SameAnswer(calls, results, c, d);
      }
    } else {
      var c, d :| 0 <= c < |calls| && 0 <= d < |calls| && calls[c].id == calls[d].id
        && Latest(results, calls[c].id).None?
                  && CallName(calls[c]) != CallName(calls[d]);
      var e := AgainFromLast(calls, results, c);
      assert twice[c] == twice[d] && once[c] != once[d];
    }
  }

  lemma SameAnswer(calls: seq<Call>, results: seq<Message>, c: nat, d: nat)
    requires SameNames(calls, results) && c < |calls| && d < |calls| && calls[c].id == calls[d].id
    ensures Answer(calls[c], results) == Answer(calls[d], results)
  {
  }

  lemma {:induction false} NoneUnasked(calls: seq<Call>, results: seq<Message>)
    requires forall k | 0 <= k < |results| :: results[k].callID in Asked(calls)
    ensures Unasked(calls, results) == 0
  {
    if results != [] {
      assert forall k | 0 <= k < |results| - 1 :: results[..|results| - 1][k] == results[k];
      NoneUnasked(calls, results[..|results| - 1]);
    }
  }

  /** A second pass drops nothing, and changes nothing exactly when no message has two unanswered calls of one ID for
      functions of different names. */
  lemma {:induction false} SecondPass(msgs: seq<Message>)
    ensures Dropped(Repaired(msgs)) == 0
    ensures Repaired(Repaired(msgs)) == Repaired(msgs) <==> Stable(msgs)
    decreases |msgs|
  {
    if msgs == [] {
    } else if IsTool(msgs[0]) {
      SecondPass(msgs[1..]);
    } else if !IsCaller(msgs[0]) {
      SecondPass(msgs[1..]);
      var out := Repaired(msgs);
      assert out[1..] == Repaired(msgs[1..]);
      assert Repaired(out)[1..] == Repaired(out[1..]);
    } else {
      var n := LeadingTools(msgs[1..]);
      SecondPass(msgs[1 + n..]);
      RepairedWellAnswered(msgs[1 + n..]);
      SecondGroup(msgs[0], msgs[1..1 + n], Repaired(msgs[1 + n..]));
    }
  }

  /** Unfolding both functions at a caller followed by exactly its tool messages. */
  lemma {:induction false} GroupUnfolds(m: Message, tools: seq<Message>, rest: seq<Message>)
    requires IsCaller(m) && (forall k | 0 <= k < |tools| :: IsTool(tools[k])) && (rest != [] ==> !IsTool(rest[0]))
    ensures Repaired([m] + tools + rest) == [m] + Answers(m.calls, tools) + Repaired(rest)
    ensures Dropped([m] + tools + rest) == Unasked(m.calls, tools) + Dropped(rest)
  {
    hide Answers, Unasked;
    var out := [m] + tools + rest;
    assert out[1..] == tools + rest;
    LeadingToolsIs(out[1..], |tools|);
    assert out[1..1 + |tools|] == tools && out[1 + |tools|..] == rest;
  }

  lemma {:induction false} SecondGroup(m: Message, results: seq<Message>, rest: seq<Message>)
    requires IsCaller(m) && (forall k | 0 <= k < |results| :: IsTool(results[k])) && (rest != [] ==> !IsTool(rest[0]))
    ensures var out := [m] + Answers(m.calls, results) + rest;
      && Dropped(out) == Dropped(rest)
      && (Repaired(out) == out <==> SameNames(m.calls, results) && Repaired(rest) == rest)
  {
    hide Repaired, Dropped, Unasked, SameNames, Answer;
    var answers := Answers(m.calls, results);
    var out := [m] + answers + rest;
    AnswersAreTools(m.calls, results);
    AnswersAgain(m.calls, results);
    GroupUnfolds(m, answers, rest);
    assert forall k | 0 <= k < |answers| :: answers[k].callID in Asked(m.calls);
    NoneUnasked(m.calls, answers);
    var twice := Answers(m.calls, answers);
    var again := [m] + twice + Repaired(rest);
    if again == out {
      assert again[1..1 + |twice|] == twice && out[1..1 + |answers|] == answers;
      assert again[1 + |twice|..] == Repaired(rest) && out[1 + |answers|..] == rest;
    }
  }

  lemma {:induction false} DistinctIsStable(msgs: seq<Message>)
    requires forall i, c, d | 0 <= i < |msgs| && 0 <= c < d < |msgs[i].calls| ::
      msgs[i].calls[c].id != msgs[i].calls[d].id
    ensures Stable(msgs)
    decreases |msgs|
  {
    if msgs != [] {
      var n := if IsCaller(msgs[0]) then LeadingTools(msgs[1..]) else 0;
      DistinctIsStable(msgs[1 + n..]);
    }
  }

  /** With distinct call IDs per message a second pass changes nothing and drops nothing. */
  lemma DistinctIdempotent(msgs: seq<Message>)
    requires forall i, c, d | 0 <= i < |msgs| && 0 <= c < d < |msgs[i].calls| ::
      msgs[i].calls[c].id != msgs[i].calls[d].id
    ensures Repaired(Repaired(msgs)) == Repaired(msgs) && Dropped(Repaired(msgs)) == 0
  {
    hide Repaired, Dropped, Stable;
    DistinctIsStable(msgs);
    SecondPass(msgs);
  }
}

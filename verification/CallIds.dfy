/** Tool-call IDs over a session (llmadk/response.go, llmadk/request.go, provenance.go). The random IDs that the retry
    loops draw are a finite list of draws; a loop that is still looking when the list ends has no outcome. */
module CallIds {
  import opened Options

  const MIN_KEPT_LENGTH := 9
  const ADK_PREFIX := "adk-"
  const MINTED_LENGTH := 9

  predicate Alphanumeric(c: char) {
    'a' <= c <= 'z' || 'A' <= c <= 'Z' || '0' <= c <= '9'
  }

  /** What NewToolCallID may return. */
  predicate Minted(id: string) {
    |id| == MINTED_LENGTH && forall i | 0 <= i < |id| :: Alphanumeric(id[i])
  }

  predicate AllMinted(draws: seq<string>) {
    forall i | 0 <= i < |draws| :: Minted(draws[i])
  }

  predicate FromADK(id: string) {
    ADK_PREFIX <= id
  }

  lemma MintedNotFromADK(id: string)
    requires Minted(id)
    ensures !FromADK(id)
  {
    assert Alphanumeric(id[3]);
  }

  datatype Call = Call(id: string, name: string)

  // ---- Which IDs are kept ----

  /** Over a session the bridge keeps an ID that can collide with nothing before; within one response any new ID will
      do. */
  datatype Rule = OverSession(history: set<string>) | WithinResponse {
    predicate Keeps(id: string, seen: set<string>) {
      match this
      case OverSession(history) => |id| >= MIN_KEPT_LENGTH && !FromADK(id) && id !in history && id !in seen
      case WithinResponse => id != "" && id !in seen
    }

    function Taken(): set<string> {
      if OverSession? then history else {}
    }
  }

  function SetOf(ids: seq<string>): set<string> {
    set i | 0 <= i < |ids| :: ids[i]
  }

  /** ID `i` of one response: kept if possible, else a minted one that is new. */
  predicate RightlyAssigned(provided: seq<string>, issued: seq<string>, i: nat, rule: Rule)
    requires i < |issued| <= |provided|
  {
    var seen := SetOf(issued[..i]);
    if rule.Keeps(provided[i], seen) then issued[i] == provided[i]
    else Minted(issued[i]) && issued[i] !in rule.Taken() && issued[i] !in seen
  }

  predicate Assigned(provided: seq<string>, issued: seq<string>, rule: Rule) {
    |issued| == |provided| && forall i: nat | i < |issued| :: RightlyAssigned(provided, issued, i, rule)
  }

  /** The IDs of the first `n` calls are assigned, and for call n every draw is taken: it may not keep its ID, and
      each draw is in the history or the ID of an earlier call. */
  predicate OutOfDraws(provided: seq<string>, ids: seq<string>, rule: Rule, draws: seq<string>, n: nat) {
    && n < |ids| == |provided|
    && (forall i: nat | i < n :: RightlyAssigned(provided, ids[..n], i, rule))
    && !rule.Keeps(provided[n], SetOf(ids[..n])) && ids[n..] == provided[n..]
    && forall i | 0 <= i < |draws| :: draws[i] in rule.Taken() + SetOf(ids[..n])
  }

  /** The draws that no earlier request can have used. */
  function NewDraws(draws: seq<string>, rule: Rule): set<string> {
    set i | 0 <= i < |draws| && draws[i] !in rule.Taken() :: draws[i]
  }

  lemma {:induction false} SetSize(ids: seq<string>)
    ensures |SetOf(ids)| <= |ids|
  {
    if ids == [] {
      assert SetOf(ids) == {};
    } else {
      var front, last := ids[..|ids| - 1], ids[|ids| - 1];
      SetSize(front);
      assert forall i | 0 <= i < |front| :: ids[i] == front[i];
      assert SetOf(ids) == SetOf(front) + {last};
    }
  }

  lemma SubsetSize(a: set<string>, b: set<string>)
    requires a <= b
    ensures |a| <= |b|
  {
    assert a + (b - a) == b;
  }

  /** As many new draws as calls are always enough. */
  lemma EnoughDraws(provided: seq<string>, ids: seq<string>, rule: Rule, draws: seq<string>, n: nat)
    requires OutOfDraws(provided, ids, rule, draws, n)
    ensures |NewDraws(draws, rule)| < |ids|
  {
    SetSize(ids[..n]);
    SubsetSize(NewDraws(draws, rule), SetOf(ids[..n]));
  }

  /** The first draw from `pos` on that is not taken, and where the draws after it begin. */
  method Draw(draws: seq<string>, pos: nat, taken: set<string>) returns (id: Option<string>, next: nat)
    requires AllMinted(draws) && pos <= |draws|
    ensures pos <= next <= |draws|
    ensures id.Some? ==> next > pos && id.value == draws[next - 1] && Minted(id.value) && id.value !in taken
    ensures forall i | pos <= i < (if id.Some? then next - 1 else |draws|) :: draws[i] in taken
  {
    next := pos;
    while next < |draws|
      invariant pos <= next <= |draws|
      invariant forall i | pos <= i < next :: draws[i] in taken
    {
      next := next + 1;
      if draws[next - 1] !in taken { return Some(draws[next - 1]), next; }
    }
    return None, next;
  }

  ghost function IDs(calls: seq<Call>): (r: seq<string>)
    ensures |r| == |calls|
  {
    seq(|calls|, i requires 0 <= i < |calls| => calls[i].id)
  }

  /** assignIDs. */
  method AssignIDs(calls: array<Call>, history: set<string>, draws: seq<string>) returns (done: bool)
    requires AllMinted(draws)
    modifies calls
    ensures done ==> Assigned(IDs(old(calls[..])), IDs(calls[..]), OverSession(history))
    ensures !done ==> exists n: nat :: OutOfDraws(IDs(old(calls[..])), IDs(calls[..]), OverSession(history), draws, n)
    ensures |NewDraws(draws, OverSession(history))| >= calls.Length ==> done
    ensures forall i | 0 <= i < calls.Length :: calls[i].name == old(calls[i].name)
  {
    var seen: set<string> := {};
    var pos := 0;
    ghost var provided := IDs(calls[..]);
    for i := 0 to calls.Length
      invariant pos <= |draws|
      invariant forall k | 0 <= k < calls.Length :: calls[k].name == old(calls[k].name)
      invariant forall k | i <= k < calls.Length :: calls[k] == old(calls[k])
      invariant seen == SetOf(IDs(calls[..i]))
      invariant forall k | 0 <= k < pos :: draws[k] in history + seen
      invariant forall k: nat | k < i :: RightlyAssigned(provided, IDs(calls[..i]), k, OverSession(history))
    {
      var id := calls[i].id;
      ghost var before := IDs(calls[..i]);
      if !(|id| >= MIN_KEPT_LENGTH && !FromADK(id) && id !in history && id !in seen) {
        var drawn, next := Draw(draws, pos, history + seen);
        if drawn.None? {
          IDsSplit(calls[..], i);
          assert calls[..][..i] == calls[..i];
          StoppedAt(provided, IDs(calls[..]), i, OverSession(history), draws);
          return false;
        }
        id := drawn.value;
        pos := next;
      }
      calls[i] := calls[i].(id := id);
      ghost var after := IDs(calls[..i + 1]);
      assert after == before + [id];
      OneMoreAssigned(provided, before, id, OverSession(history));
      seen := seen + {id};
    }
    assert calls[..calls.Length] == calls[..];
    return true;
  }

  lemma OneMoreAssigned(provided: seq<string>, before: seq<string>, id: string, rule: Rule)
    requires |before| < |provided|
    requires forall k: nat | k < |before| :: RightlyAssigned(provided, before, k, rule)
    requires if rule.Keeps(provided[|before|], SetOf(before)) then id == provided[|before|]
             else Minted(id) && id !in rule.Taken() && id !in SetOf(before)
    ensures SetOf(before + [id]) == SetOf(before) + {id}
    ensures forall k: nat | k <= |before| :: RightlyAssigned(provided, before + [id], k, rule)
  {
    var after := before + [id];
    forall k: nat | k <= |before| ensures RightlyAssigned(provided, after, k, rule) {
      if k < |before| {
        assert RightlyAssigned(provided, before, k, rule);
        assert after[..k] == before[..k];
      } else {
        assert after[..k] == before;
      }
    }
    assert forall i | 0 <= i < |before| :: after[i] == before[i];
    assert after[|before|] == id;
  }

  lemma IDsSplit(calls: seq<Call>, i: nat)
    requires i <= |calls|
    ensures IDs(calls)[..i] == IDs(calls[..i]) && IDs(calls)[i..] == IDs(calls[i..])
  {
  }

  lemma StoppedAt(provided: seq<string>, ids: seq<string>, i: nat, rule: Rule, draws: seq<string>)
    requires i < |ids| == |provided| && ids[i..] == provided[i..]
    requires forall k: nat | k < i :: RightlyAssigned(provided, ids[..i], k, rule)
    requires !rule.Keeps(provided[i], SetOf(ids[..i]))
    requires forall k | 0 <= k < |draws| :: draws[k] in rule.Taken() + SetOf(ids[..i])
    ensures OutOfDraws(provided, ids, rule, draws, i) && |NewDraws(draws, rule)| < |ids|
  {
    EnoughDraws(provided, ids, rule, draws, i);
  }

  predicate Distinct(ids: seq<string>) {
    forall i, k | 0 <= i < k < |ids| :: ids[i] != ids[k]
  }

  /** The IDs of one response are new, distinct and never ADK's own. */
  lemma AssignedAreNew(provided: seq<string>, issued: seq<string>, history: set<string>)
    requires Assigned(provided, issued, OverSession(history))
    ensures Distinct(issued)
    ensures forall i | 0 <= i < |issued| ::
      issued[i] !in history && !FromADK(issued[i]) && |issued[i]| >= MIN_KEPT_LENGTH
  {
    forall i | 0 <= i < |issued|
      ensures issued[i] !in history && !FromADK(issued[i]) && |issued[i]| >= MIN_KEPT_LENGTH
    {
      assert RightlyAssigned(provided, issued, i, OverSession(history));
      if Minted(issued[i]) { MintedNotFromADK(issued[i]); }
    }
    AssignedDistinct(provided, issued, OverSession(history));
  }

  lemma AssignedDistinct(provided: seq<string>, issued: seq<string>, rule: Rule)
    requires Assigned(provided, issued, rule)
    ensures Distinct(issued)
  {
    forall i, k | 0 <= i < k < |issued| ensures issued[i] != issued[k] {
      assert RightlyAssigned(provided, issued, k, rule);
      assert issued[..k][i] == issued[i];
    }
  }

  /** Within one response IDs become non-empty and distinct; the first call with an ID keeps it, all others are
      minted. */
  lemma EnsuredMeans(provided: seq<string>, issued: seq<string>)
    requires Assigned(provided, issued, WithinResponse)
    ensures Distinct(issued)
    ensures forall i | 0 <= i < |issued| :: issued[i] != ""
    ensures forall i | 0 <= i < |issued| :: issued[i] == provided[i] || Minted(issued[i])
    ensures forall i | 0 <= i < |issued| && provided[i] != "" && provided[i] !in issued[..i] :: issued[i] == provided[i]
  {
    AssignedDistinct(provided, issued, WithinResponse);
    forall i | 0 <= i < |issued|
      ensures issued[i] != "" && (issued[i] == provided[i] || Minted(issued[i]))
      ensures provided[i] != "" && provided[i] !in issued[..i] ==> issued[i] == provided[i]
    {
      assert RightlyAssigned(provided, issued, i, WithinResponse);
    }
  }

  // ---- The history a request carries ----

  datatype Part = CallPart(id: string) | ResponsePart(id: string) | OtherPart

  /** ADK takes the IDs it made itself out of the history it sends. */
  function Sent(p: Part): Part {
    match p
    case CallPart(id) => if FromADK(id) then CallPart("") else p
    case ResponsePart(id) => if FromADK(id) then ResponsePart("") else p
    case OtherPart => p
  }

  function SentAll(ps: seq<Part>): seq<Part> {
    seq(|ps|, i requires 0 <= i < |ps| => Sent(ps[i]))
  }

  predicate Names(p: Part, id: string) {
    !p.OtherPart? && p.id == id
  }

  /** collectHistoryIDs. */
  method CollectHistoryIDs(contents: seq<Option<seq<Option<Part>>>>) returns (ids: set<string>)
    ensures forall id :: id in ids <==> id != "" && exists c, p | 0 <= c < |contents| && contents[c].Some?
      && 0 <= p < |contents[c].value| && contents[c].value[p].Some? :: Names(contents[c].value[p].value, id)
  {
    ids := {};
    for c := 0 to |contents|
      invariant forall id :: id in ids <==> id != "" && exists d, p | 0 <= d < c && contents[d].Some?
        && 0 <= p < |contents[d].value| && contents[d].value[p].Some? :: Names(contents[d].value[p].value, id)
    {
      if contents[c].None? { continue; }
      ghost var before := ids;
      var parts := contents[c].value;
      for k := 0 to |parts|
        invariant forall id :: id in ids <==>
          id in before || (id != "" && exists p | 0 <= p < k && parts[p].Some? :: Names(parts[p].value, id))
      {
        if parts[k].Some? && !parts[k].value.OtherPart? && parts[k].value.id != "" {
          ids := ids + {parts[k].value.id};
        }
      }
    }
  }

  /** The IDs named in a history. */
  function HistoryIDs(ps: seq<Part>): set<string> {
    set i | 0 <= i < |ps| && !ps[i].OtherPart? && ps[i].id != "" :: ps[i].id
  }

  // ---- A session ----

  /** One turn: what is added to the history before the request, the IDs made up for calls without one, the IDs the
      provider gave its calls, and those the bridge issued. */
  datatype Turn = Turn(input: seq<Part>, madeUp: set<string>, provided: seq<string>, issued: seq<string>)

  function CallParts(ids: seq<string>): seq<Part> {
    seq(|ids|, i requires 0 <= i < |ids| => CallPart(ids[i]))
  }

  /** The history after the turns. */
  function History(turns: seq<Turn>): seq<Part> {
    if turns == [] then []
    else var t := turns[|turns| - 1]; History(turns[..|turns| - 1]) + t.input + CallParts(t.issued)
  }

  function AllAssigned(turns: seq<Turn>): seq<string> {
    if turns == [] then [] else AllAssigned(turns[..|turns| - 1]) + turns[|turns| - 1].issued
  }

  /** Each request carries the whole earlier history as ADK sends it. */
  predicate Session(turns: seq<Turn>) {
    turns == []
    || (var before, t := turns[..|turns| - 1], turns[|turns| - 1];
        Session(before) && Assigned(t.provided, t.issued,
                                    OverSession(HistoryIDs(SentAll(History(before) + t.input)) + t.madeUp)))
  }

  /** An ID that is not ADK's is in the history that is sent when it is in the history. */
  lemma SentKeeps(ps: seq<Part>, i: nat)
    requires i < |ps| && !ps[i].OtherPart? && ps[i].id != "" && !FromADK(ps[i].id)
    ensures ps[i].id in HistoryIDs(SentAll(ps))
  {
    assert SentAll(ps)[i] == ps[i];
  }

  /** Every ID the bridge ever issued is still in the history. */
  lemma {:induction false} AssignedInHistory(turns: seq<Turn>, a: nat) returns (i: nat)
    requires a < |AllAssigned(turns)|
    ensures i < |History(turns)| && History(turns)[i] == CallPart(AllAssigned(turns)[a])
  {
    var before, t := turns[..|turns| - 1], turns[|turns| - 1];
    if a < |AllAssigned(before)| {
      i := AssignedInHistory(before, a);
    } else {
      i := |History(before)| + |t.input| + (a - |AllAssigned(before)|);
    }
  }

  /** Over a session of any length, the IDs the bridge issued are pairwise distinct and never ADK's own. */
  lemma {:induction false} SessionDistinct(turns: seq<Turn>)
    requires Session(turns)
    ensures Distinct(AllAssigned(turns))
    ensures forall a | 0 <= a < |AllAssigned(turns)| ::
      !FromADK(AllAssigned(turns)[a]) && |AllAssigned(turns)[a]| >= MIN_KEPT_LENGTH
  {
    if turns != [] {
      var before, t := turns[..|turns| - 1], turns[|turns| - 1];
      var all, carried := AllAssigned(before), History(before) + t.input;
      var known := HistoryIDs(SentAll(carried)) + t.madeUp;
      SessionDistinct(before);
      AssignedAreNew(t.provided, t.issued, known);
      forall a | 0 <= a < |all| ensures all[a] in known {
        var i := AssignedInHistory(before, a);
        assert carried[i] == CallPart(all[a]);
        SentKeeps(carried, i);
      }
      assert AllAssigned(turns) == all + t.issued;
    }
  }

  /** When an ID is issued, no part of the history up to then has it: not the calls of earlier turns, not a response,
      and not a call that was given one by someone else. */
  lemma NewToHistory(turns: seq<Turn>, i: nat, a: nat)
    requires Session(turns) && turns != []
    requires var t := turns[|turns| - 1]; i < |History(turns[..|turns| - 1]) + t.input| && a < |t.issued|
    ensures var t := turns[|turns| - 1]; !Names((History(turns[..|turns| - 1]) + t.input)[i], t.issued[a])
  {
    var before, t := turns[..|turns| - 1], turns[|turns| - 1];
    var carried := History(before) + t.input;
    AssignedAreNew(t.provided, t.issued, HistoryIDs(SentAll(carried)) + t.madeUp);
    if Names(carried[i], t.issued[a]) { SentKeeps(carried, i); }
  }

  // ---- EnsureToolCallIDs ----

  method EnsureToolCallIDs(calls: array<Call>, draws: seq<string>) returns (done: bool)
    requires AllMinted(draws)
    modifies calls
    ensures done ==> Assigned(IDs(old(calls[..])), IDs(calls[..]), WithinResponse)
    ensures !done ==> exists n: nat :: OutOfDraws(IDs(old(calls[..])), IDs(calls[..]), WithinResponse, draws, n)
    ensures |NewDraws(draws, WithinResponse)| >= calls.Length ==> done
    ensures forall i | 0 <= i < calls.Length :: calls[i].name == old(calls[i].name)
  {
    var seen: set<string> := {};
    var pos := 0;
    ghost var provided := IDs(calls[..]);
    for i := 0 to calls.Length
      invariant pos <= |draws|
      invariant forall k | 0 <= k < calls.Length :: calls[k].name == old(calls[k].name)
      invariant forall k | i <= k < calls.Length :: calls[k] == old(calls[k])
      invariant seen == SetOf(IDs(calls[..i]))
      invariant forall k | 0 <= k < pos :: draws[k] in seen
      invariant forall k: nat | k < i :: RightlyAssigned(provided, IDs(calls[..i]), k, WithinResponse)
    {
      var id := calls[i].id;
      ghost var before := IDs(calls[..i]);
      if id == "" || id in seen {
        var drawn, next := Draw(draws, pos, seen);
        if drawn.None? {
          IDsSplit(calls[..], i);
          assert calls[..][..i] == calls[..i];
          StoppedAt(provided, IDs(calls[..]), i, WithinResponse, draws);
          return false;
        }
        id := drawn.value;
        pos := next;
      }
      calls[i] := calls[i].(id := id);
      ghost var after := IDs(calls[..i + 1]);
      assert after == before + [id];
      OneMoreAssigned(provided, before, id, WithinResponse);
      seen := seen + {id};
    }
    assert calls[..calls.Length] == calls[..];
    return true;
  }
}

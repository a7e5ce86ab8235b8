/** Merging messages whose Parts and ToolCalls are slices of shared storage (message.go). No method here may write to
    storage that existed before the call, except Append and MergeInto into the slices they are given. */
module MergeMessages {
  import opened Conversation
  import opened Options

  /** A slice: a window of a backing array that may grow in place up to `cap` elements. */
  datatype Slice<T> = Nil | Slice(store: array<T>, off: nat, len: nat, cap: nat) {
    ghost predicate Valid() {
      Slice? ==> off + cap <= store.Length && len <= cap
    }

    ghost function Stores(): set<object> {
      if Slice? then {store} else {}
    }

    function Len(): nat {
      if Slice? then len else 0
    }

    function Contents(): seq<T>
      requires Valid()
      reads Stores()
    {
      if Slice? then store[off..off + len] else []
    }
  }

  datatype Message = Message(role: string, content: string, parts: Slice<Part>, calls: Slice<string>, callID: string,
                             name: string, cache: Option<string>, reasoning: Option<string>) {
    ghost predicate Valid() {
      parts.Valid() && calls.Valid() && parts.Stores() !! calls.Stores()
    }

    ghost function Stores(): set<object> {
      parts.Stores() + calls.Stores()
    }

    /** The message's value. */
    ghost function View(): Msg
      requires Valid()
      reads Stores()
    {
      Msg(role, content, parts.Contents(), calls.Contents(), callID, name, cache, reasoning)
    }
  }

  ghost predicate AllValid(ms: seq<Message>) {
    forall i | 0 <= i < |ms| :: ms[i].Valid()
  }

  ghost function AllStores(ms: seq<Message>): set<object> {
    set m, o | m in ms && o in m.Stores() :: o
  }

  ghost function Views(ms: seq<Message>): seq<Msg>
    requires AllValid(ms)
    reads AllStores(ms)
    ensures |Views(ms)| == |ms|
  {
    if ms == [] then []
    else
      assert Last(ms) in ms && forall m | m in Front(ms) :: m in ms;
      Views(Front(ms)) + [Last(ms).View()]
  }

  /** The built-in append: in place while there is room, else into a new array of some larger capacity. */
  method Append<T(0)>(s: Slice<T>, xs: seq<T>) returns (r: Slice<T>)
    requires s.Valid()
    modifies s.Stores()
    ensures r.Valid() && r.Contents() == old(s.Contents()) + xs
    ensures r.Stores() <= s.Stores() || fresh(r.Stores())
  {
    if s.Slice? && s.len + |xs| <= s.cap {
      var start := s.off + s.len;
      for i := 0 to |xs|
        invariant forall j | 0 <= j < start :: s.store[j] == old(s.store[j])
        invariant forall j | 0 <= j < i :: s.store[start + j] == xs[j]
      {
        s.store[start + i] := xs[i];
      }
      r := s.(len := s.len + |xs|);
    } else if s.Nil? && xs == [] {
      r := Nil;
    } else {
      r := Allocate(s.Contents() + xs);
    }
  }

  method Allocate<T(0)>(xs: seq<T>) returns (r: Slice<T>)
    ensures r.Valid() && r.Contents() == xs && fresh(r.Stores())
  {
    var cap: nat :| cap >= |xs|;
    var store := new T[cap];
    for i := 0 to |xs|
      invariant forall j | 0 <= j < i :: store[j] == xs[j]
    {
      store[i] := xs[i];
    }
    r := Slice(store, 0, |xs|, cap);
  }

  /** cloneMessageSlices. */
  method CloneMessageSlices(m: Message) returns (r: Message)
    requires m.Valid()
    ensures r.Valid() && r.View() == old(m.View())
    ensures fresh(r.Stores())
  {
    var parts := Append(Nil, m.parts.Contents());
    ghost var copied := parts.Contents();
    var calls := Append(Nil, m.calls.Contents());
    assert parts.Contents() == copied;
    r := m.(parts := parts, calls := calls);
  }

  method Promoted(c: string, p: Slice<Part>, more: Slice<Part>) returns (content: string, parts: Slice<Part>)
    requires p.Valid() && more.Valid() && p.Stores() !! more.Stores()
    ensures parts.Valid() && (parts.Stores() == p.Stores() || fresh(parts.Stores()))
    ensures (content, parts.Contents()) == Promote(c, p.Contents(), more.Contents())
  {
    if c != "" && (p.Len() > 0 || more.Len() > 0) {
      var first := Allocate([Text(c)]);
      parts := Append(first, p.Contents());
      content := "";
    } else {
      content, parts := c, p;
    }
  }

  /** The part of the merge step that deals with text and parts. */
  method MergeBody(c: string, p: Slice<Part>, text: string, more: Slice<Part>)
    returns (content: string, parts: Slice<Part>)
    requires p.Valid() && more.Valid() && p.Stores() !! more.Stores()
    modifies p.Stores()
    ensures parts.Valid() && (parts.Stores() <= p.Stores() || fresh(parts.Stores()))
    ensures (content, parts.Contents()) == AbsorbBody(c, old(p.Contents()), text, old(more.Contents()))
  {
    ghost var extra := more.Contents();
    content, parts := Promoted(c, p, more);
    ghost var promoted := (content, parts.Contents());
    assert promoted == Promote(c, p.Contents(), extra);
    if text != "" {
      if parts.Len() > 0 {
        parts := Append(parts, [Text(text)]);
      } else if content != "" {
        content := content + "\n" + text;
      } else {
        content := text;
      }
    }
    ghost var absorbed := (content, parts.Contents());
    assert absorbed == AbsorbText(promoted.0, promoted.1, text);
    assert more.Contents() == extra;
    if more.Len() > 0 {
      parts := Append(parts, more.Contents());
    }
    assert parts.Contents() == absorbed.1 + extra;
  }

  /** The merge step: `m` into the accumulator, in place where its storage has room. */
  method MergeInto(c: Message, m: Message) returns (r: Message)
    requires c.Valid() && m.Valid() && c.Stores() !! m.Stores()
    modifies c.Stores()
    ensures r.Valid() && r.View() == Absorb(old(c.View()), old(m.View()))
    ensures forall o | o in r.Stores() :: o in c.Stores() || fresh(o)
    ensures r.role == c.role
  {
    hide AbsorbBody;
    ghost var own, more := c.calls.Contents(), m.calls.Contents();
    var content, parts := MergeBody(c.content, c.parts, m.content, m.parts);
    ghost var joined := parts.Contents();
    assert c.calls.Contents() == own && m.calls.Contents() == more;
    var calls := c.calls;
    if m.calls.Len() > 0 {
      calls := Append(calls, m.calls.Contents());
    }
    assert parts.Contents() == joined && calls.Contents() == own + more;
    r := c.(content := content, parts := parts, calls := calls, cache := if m.cache.Some? then m.cache else c.cache);
  }

  /** MergeConsecutiveMessages. */
  method MergeConsecutiveMessages(messages: seq<Message>) returns (result: seq<Message>)
    requires AllValid(messages)
    ensures AllValid(result) && Views(result) == MergeConsecutive(Views(messages))
  {
    hide Merge, Consolidate, Views, AllValid, AllStores;
    if |messages| <= 1 { return messages; }
    Allocated(messages);
    var consolidated := ConsolidateSystemMessages(messages);
    Allocated(consolidated);
    result := MergeRuns(consolidated);
  }

  /** The loop of MergeConsecutiveMessages. */
  method MergeRuns(messages: seq<Message>) returns (result: seq<Message>)
    requires AllValid(messages)
    ensures AllValid(result) && Views(result) == Merge(Views(messages))
  {
    hide Merge, Next, AllStores, Accumulated;
    result := [];
    var current: Option<Message> := None;
    ghost var vs := Views(messages);
    Allocated(messages);
    NoMessages();
    for i := 0 to |messages|
      invariant Progress(result, current) && Accumulated(result, current) == Merge(vs[..i])
      invariant current.Some? ==> fresh(current.value.Stores())
      invariant Views(messages) == vs
    {
      MergeOneMore(vs[..i], vs[i]);
      assert vs[..i + 1] == vs[..i] + [vs[i]];
      ViewAt(messages, i);
      result, current := TakeNext(result, current, messages[i]);
    }
    assert vs[..|messages|] == vs;
    FlushAll(result, current);
    result := Flush(result, current);
  }

  /** One iteration. */
  method TakeNext(result: seq<Message>, current: Option<Message>, m: Message)
    returns (r: seq<Message>, c: Option<Message>)
    requires Progress(result, current) && m.Valid()
    requires current.Some? ==> current.value.Stores() !! m.Stores()
    modifies if current.Some? then current.value.Stores() else {}
    ensures Progress(r, c) && Accumulated(r, c) == Next(old(Accumulated(result, current)), old(m.View()))
    ensures c.Some? ==> forall o | o in c.value.Stores() :: fresh(o) || (current.Some? && o in current.value.Stores())
  {
    hide Absorb, Views, AllStores, AbsorbBody;
    r, c := result, current;
    if m.role == ROLE_TOOL || m.role == ROLE_SYSTEM {
      FlushAll(result, current);
      ViewsOneMore(Flush(result, current), m);
      r, c := Flush(result, current) + [m], None;
    } else if m.reasoning.Some? || (current.Some? && current.value.reasoning.Some?) {
      r, c := StartGroup(result, current, m);
    } else if current.Some? && current.value.role == m.role {
      ghost var before := Views(result);
      Allocated(result);
      var merged := MergeInto(current.value, m);
      assert Views(result) == before;
      assert Accumulated(result, Some(merged)) == before + [merged.View()];
      c := Some(merged);
    } else {
      if result != [] { LastRole(result); }
      r, c := StartGroup(result, current, m);
    }
  }

  /** Closes the group, if one is open, and opens another with a copy of `m`. */
  method StartGroup(result: seq<Message>, current: Option<Message>, m: Message)
    returns (r: seq<Message>, c: Option<Message>)
    requires Progress(result, current) && m.Valid() && m.role != ROLE_TOOL && m.role != ROLE_SYSTEM
    ensures Progress(r, c) && Accumulated(r, c) == old(Accumulated(result, current)) + [old(m.View())]
    ensures c.Some? && fresh(c.value.Stores())
  {
    hide Views, AllStores;
    FlushAll(result, current);
    r := Flush(result, current);
    Allocated(r);
    ghost var before, view := Views(r), m.View();
    var copy := CloneMessageSlices(m);
    assert Views(r) == before && copy.View() == view;
    c := Some(copy);
  }

  function Flush(result: seq<Message>, current: Option<Message>): seq<Message> {
    if current.Some? then result + [current.value] else result
  }

  /** The accumulator shares no storage with what is done, and it is closed after a tool or system message. */
  ghost predicate Progress(result: seq<Message>, current: Option<Message>) {
    && AllValid(result)
    && (current.None? && result != [] ==> Last(result).role == ROLE_TOOL || Last(result).role == ROLE_SYSTEM)
    && (current.Some? ==>
          && current.value.Valid() && current.value.Stores() !! AllStores(result)
          && current.value.role != ROLE_TOOL && current.value.role != ROLE_SYSTEM)
  }

  ghost function Accumulated(result: seq<Message>, current: Option<Message>): seq<Msg>
    requires AllValid(result) && (current.Some? ==> current.value.Valid())
    reads AllStores(result), if current.Some? then current.value.Stores() else {}
  {
    Views(result) + if current.Some? then [current.value.View()] else []
  }

  lemma NoMessages()
    ensures Merge([]) == [] && Progress([], None) && Accumulated([], None) == []
  {
    assert Groups([]) == [];
  }

  lemma ViewAt(ms: seq<Message>, i: nat)
    requires AllValid(ms) && i < |ms|
    ensures Views(ms)[i] == ms[i].View() && ms[i].Stores() <= AllStores(ms)
  {
    assert ms[i] in ms;
    if i < |ms| - 1 { ViewAt(Front(ms), i); }
  }

  lemma LastRole(ms: seq<Message>)
    requires AllValid(ms) && ms != []
    ensures Views(ms) != [] && Last(Views(ms)).role == Last(ms).role
  {
  }

  lemma ViewsOneMore(ms: seq<Message>, m: Message)
    requires AllValid(ms) && m.Valid()
    ensures AllValid(ms + [m]) && Views(ms + [m]) == Views(ms) + [m.View()]
  {
    assert Front(ms + [m]) == ms;
  }

  lemma FlushAll(result: seq<Message>, current: Option<Message>)
    requires Progress(result, current)
    ensures AllValid(Flush(result, current)) && Views(Flush(result, current)) == Accumulated(result, current)
  {
    if current.Some? { assert Front(result + [current.value]) == result; }
  }

  lemma Allocated(ms: seq<Message>)
    ensures forall o | o in AllStores(ms) :: allocated(o)
  {
    forall o | o in AllStores(ms) ensures allocated(o) {
      var m :| m in ms && o in m.Stores();
      assert allocated(m);
      assert allocated(m.parts) && allocated(m.calls);
    }
  }

  /** joinStrings. */
  method JoinStrings(parts: seq<string>, sep: string) returns (r: string)
    ensures r == Join(parts, sep)
  {
    if |parts| == 0 { return ""; }
    if |parts| == 1 { return parts[0]; }
    r := "";
    assert parts[..0] == [];
    for i := 0 to |parts|
      invariant r == Join(parts[..i], sep)
    {
      JoinOneMore(parts[..i], parts[i], sep);
      assert parts[..i + 1] == parts[..i] + [parts[i]];
      if i > 0 { r := r + sep; }
      r := r + parts[i];
    }
    assert parts[..|parts|] == parts;
  }

  /** mergeSystemContent. */
  method MergeSystemContent(messages: seq<Message>) returns (content: string, parts: Slice<Part>)
    requires AllValid(messages)
    ensures parts.Valid() && fresh(parts.Stores())
    ensures old(SystemMessage(Views(messages))).content == content
    ensures old(SystemMessage(Views(messages))).parts == parts.Contents()
  {
    hide Views, AllStores, AllValid, FlatMap, TextsIn;
    var ps, texts := Gather(messages);
    if |ps| == 0 {
      assert ps == [];
      NoTexts();
      return "", Nil;
    }
    for i := 0 to |ps|
      invariant forall j | 0 <= j < i :: ps[j].Text?
    {
      if !ps[i].Text? {
        parts := Allocate(ps);
        assert HasMedia(ps);
        return "", parts;
      }
    }
    content := JoinStrings(texts, "\n\n");
    parts := Nil;
  }

  lemma NoTexts()
    ensures TextsIn([]) == []
  {
  }

  /** The first loop of mergeSystemContent. */
  method Gather(messages: seq<Message>) returns (ps: seq<Part>, texts: seq<string>)
    requires AllValid(messages)
    ensures ps == FlatMap(Contributed, old(Views(messages))) && texts == TextsIn(ps)
  {
    hide Views, AllStores, FlatMap, Contributed;
    NoTexts();
    ps, texts := [], [];
    ghost var vs := Views(messages);
    assert vs[..0] == [];
    NothingContributed();
    Allocated(messages);
    for i := 0 to |messages|
      invariant Views(messages) == vs
      invariant ps == FlatMap(Contributed, vs[..i]) && texts == TextsIn(ps)
    {
      ViewAt(messages, i);
      ContributedOneMore(vs[..i], vs[i]);
      assert vs[..i + 1] == vs[..i] + [vs[i]];
      ps, texts := GatherOne(messages[i], ps, texts);
    }
    assert vs[..|messages|] == vs;
  }

  lemma NothingContributed()
    ensures FlatMap(Contributed, []) == []
  {
  }

  method GatherOne(m: Message, before: seq<Part>, beforeTexts: seq<string>) returns (ps: seq<Part>, texts: seq<string>)
    requires m.Valid() && beforeTexts == TextsIn(before)
    ensures ps == before + Contributed(m.View()) && texts == TextsIn(ps)
  {
    ps, texts := before, beforeTexts;
    if m.parts.Len() == 0 {
      if m.content != "" {
        TextsInOneMore(ps, Text(m.content));
        ps, texts := ps + [Text(m.content)], texts + [m.content];
      }
      return;
    }
    var own := m.parts.Contents();
    for j := 0 to |own|
      invariant ps == before + own[..j] && texts == TextsIn(ps)
    {
      TextsInOneMore(ps, own[j]);
      ps := ps + [own[j]];
      if own[j].Text? { texts := texts + [own[j].text]; }
    }
    assert own[..|own|] == own;
  }

  /** ConsolidateSystemMessages. */
  method ConsolidateSystemMessages(messages: seq<Message>) returns (result: seq<Message>)
    requires AllValid(messages)
    ensures AllValid(result) && Views(result) == Consolidate(Views(messages))
  {
    hide SystemMessage, AllStores, Views, Systems, NonSystem, FirstCache, AllValid;
    ghost var vs := Views(messages);
    Allocated(messages);
    var systems, others, cache := SplitSystem(messages);
    assert |Views(systems)| == |systems|;
    if |systems| == 0 { return messages; }
    Allocated(others);
    Allocated(systems);
    assert Views(systems) == Systems(vs) && Views(others) == NonSystem(vs);
    var content, parts := MergeSystemContent(systems);
    assert Views(systems) == Systems(vs) && Views(others) == NonSystem(vs);
    var s := Message(ROLE_SYSTEM, content, parts, Nil, "", "", cache, None);
    result := [s] + others;
    SystemView(s, systems);
    ViewsInFront(s, others);
  }

  /** The loop of ConsolidateSystemMessages. */
  method SplitSystem(messages: seq<Message>)
    returns (systems: seq<Message>, others: seq<Message>, cache: Option<string>)
    requires AllValid(messages)
    ensures AllValid(systems) && Views(systems) == Systems(old(Views(messages)))
    ensures AllValid(others) && Views(others) == NonSystem(old(Views(messages)))
    ensures cache == FirstCache(Systems(old(Views(messages))))
  {
    hide AllStores, Systems, NonSystem, FirstCache, Views;
    systems, others, cache := [], [], None;
    ghost var vs := Views(messages);
    assert vs[..0] == [];
    NothingSplit();
    Allocated(messages);
    for i := 0 to |messages|
      invariant Views(messages) == vs
      invariant AllValid(systems) && Views(systems) == Systems(vs[..i])
      invariant AllValid(others) && Views(others) == NonSystem(vs[..i])
      invariant cache == FirstCache(Systems(vs[..i]))
    {
      var m := messages[i];
      ViewAt(messages, i);
      FilterOneMore(vs[..i], vs[i]);
      assert vs[..i + 1] == vs[..i] + [vs[i]];
      assert vs[i].role == m.role && vs[i].cache == m.cache;
      if m.role == ROLE_SYSTEM {
        ViewsOneMore(systems, m);
        FirstCacheOneMore(Systems(vs[..i]), vs[i]);
        systems := systems + [m];
        if cache.None? { cache := m.cache; }
      } else {
        ViewsOneMore(others, m);
        others := others + [m];
      }
    }
    assert vs[..|messages|] == vs;
  }

  lemma NothingSplit()
    ensures Systems([]) == [] && NonSystem([]) == [] && FirstCache([]) == None && Views([]) == []
  {
  }

  lemma SystemView(s: Message, systems: seq<Message>)
    requires AllValid(systems) && s.Valid()
    requires s == Message(ROLE_SYSTEM, s.content, s.parts, Nil, "", "", FirstCache(Views(systems)), None)
    requires s.content == SystemMessage(Views(systems)).content
    requires s.parts.Contents() == SystemMessage(Views(systems)).parts
    ensures s.View() == SystemMessage(Views(systems))
  {
  }

  lemma {:induction false} ViewsInFront(m: Message, ms: seq<Message>)
    requires m.Valid() && AllValid(ms)
    ensures AllValid([m] + ms) && Views([m] + ms) == [m.View()] + Views(ms)
  {
    if ms == [] {
      assert [m] + ms == [m] && Front([m]) == [];
      assert Views([]) == [];
    } else {
      assert Front([m] + ms) == [m] + Front(ms) && Last([m] + ms) == Last(ms);
      ViewsInFront(m, Front(ms));
    }
  }
}

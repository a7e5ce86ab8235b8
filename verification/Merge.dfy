/** What merging neighbouring messages means (message.go, MergeConsecutiveMessages and ConsolidateSystemMessages). */
module Conversation {
  import opened Options

  /** A content part: text, or an image, audio clip or file. */
  datatype Part = Text(text: string) | Media(content: string)

  datatype Msg = Msg(role: string, content: string, parts: seq<Part>, calls: seq<string>, callID: string, name: string,
                     cache: Option<string>, reasoning: Option<string>)

  const ROLE_SYSTEM := "system"
  const ROLE_TOOL := "tool"

  function Last<T>(s: seq<T>): T
    requires s != []
  {
    s[|s| - 1]
  }

  function Front<T>(s: seq<T>): seq<T>
    requires s != []
  {
    s[..|s| - 1]
  }

  function Concat<T>(ss: seq<seq<T>>): seq<T> {
    if ss == [] then [] else Concat(Front(ss)) + Last(ss)
  }

  /** A message uses Content or Parts, not both. */
  predicate OneForm(m: Msg) {
    m.content == "" || m.parts == []
  }

  /** What the message says, in order. */
  function Pieces(m: Msg): seq<Part> {
    (if m.content == "" then [] else [Text(m.content)]) + m.parts
  }

  function FlatMap<S, T>(f: S -> seq<T>, s: seq<S>): seq<T> {
    if s == [] then [] else FlatMap(f, Front(s)) + f(Last(s))
  }

  lemma {:induction false} FlatMapSum<S, T>(f: S -> seq<T>, a: seq<S>, b: seq<S>)
    ensures FlatMap(f, a + b) == FlatMap(f, a) + FlatMap(f, b)
  {
    if b == [] {
      assert a + b == a;
    } else {
      assert Front(a + b) == a + Front(b) && Last(a + b) == Last(b);
      FlatMapSum(f, a, Front(b));
      var x, y, z := FlatMap(f, a), FlatMap(f, Front(b)), f(Last(b));
      assert x + y + z == x + (y + z);
    }
  }

  function AllPieces(ms: seq<Msg>): seq<Part> {
    if ms == [] then [] else AllPieces(Front(ms)) + Pieces(Last(ms))
  }

  function AllCalls(ms: seq<Msg>): seq<string> {
    if ms == [] then [] else AllCalls(Front(ms)) + Last(ms).calls
  }

  function LastCache(ms: seq<Msg>): Option<string> {
    if ms == [] then None else if Last(ms).cache.Some? then Last(ms).cache else LastCache(Front(ms))
  }

  // ---- Text and media of a list of pieces ----

  /** Two texts on separate lines, an empty one leaving no line. */
  function OnLines(s: string, t: string): string {
    if t == "" then s else if s == "" then t else s + "\n" + t
  }

  /** The non-empty texts, one per line. */
  function TextOf(ps: seq<Part>): string {
    if ps == [] then "" else OnLines(TextOf(Front(ps)), if Last(ps).Text? then Last(ps).text else "")
  }

  function MediaOf(ps: seq<Part>): seq<Part> {
    if ps == [] then [] else MediaOf(Front(ps)) + if Last(ps).Media? then [Last(ps)] else []
  }

  /** Message.Text: Content, or the non-empty text parts one per line. */
  function MessageText(m: Msg): string {
    if m.content != "" then m.content else TextOf(m.parts)
  }

  /** Pieces with every run of neighbouring texts put into one piece, one text per line: what a reader sees, however the
      text is cut into pieces. */
  function Normal(ps: seq<Part>): seq<Part> {
    if ps == [] then [] else Fuse(Normal(Front(ps)), Last(ps))
  }

  function Fuse(n: seq<Part>, p: Part): seq<Part> {
    if p == Text("") then n
    else if p.Text? && n != [] && Last(n).Text? then Front(n) + [Text(Last(n).text + "\n" + p.text)]
    else n + [p]
  }

  /** Equal normal forms stay equal when the same pieces follow. */
  lemma {:induction false} NormalExtends(a: seq<Part>, b: seq<Part>, c: seq<Part>)
    requires Normal(a) == Normal(b)
    ensures Normal(a + c) == Normal(b + c)
  {
    if c == [] {
      assert a + c == a && b + c == b;
    } else {
      NormalExtends(a, b, Front(c));
      assert Front(a + c) == a + Front(c) && Front(b + c) == b + Front(c);
    }
  }

  lemma {:induction false} FuseTwice(n: seq<Part>, s: string, t: string)
    requires s != "" && t != ""
    ensures Fuse(Fuse(n, Text(s)), Text(t)) == Fuse(n, Text(s + "\n" + t))
  {
    if n != [] && Last(n).Text? {
      var last := Last(n).text;
      assert Front(Front(n) + [Text(last + "\n" + s)]) == Front(n);
      assert (last + "\n" + s) + "\n" + t == last + "\n" + (s + "\n" + t);
    } else {
      assert Front(n + [Text(s)]) == n;
    }
  }

  lemma NormalOneMore(a: seq<Part>, p: Part)
    ensures Normal(a + [p]) == Fuse(Normal(a), p)
  {
    assert Front(a + [p]) == a;
  }

  /** Two texts say the same as one with a line break between them. */
  lemma TextsFuse(a: seq<Part>, s: string, t: string)
    requires s != "" && t != ""
    ensures Normal(a + [Text(s), Text(t)]) == Normal(a + [Text(s + "\n" + t)])
  {
    hide Fuse, Normal;
    NormalOneMore(a, Text(s));
    NormalOneMore(a + [Text(s)], Text(t));
    NormalOneMore(a, Text(s + "\n" + t));
    assert a + [Text(s)] + [Text(t)] == a + [Text(s), Text(t)];
    FuseTwice(Normal(a), s, t);
  }

  predicate NoEmptyText(ps: seq<Part>) {
    forall i | 0 <= i < |ps| :: ps[i] != Text("")
  }

  lemma LinesAssociate(r: string, s: string, t: string)
    ensures OnLines(OnLines(r, s), t) == OnLines(r, OnLines(s, t))
  {
    assert (r + "\n" + s) + "\n" + t == r + "\n" + (s + "\n" + t);
  }

  lemma FuseKeeps(n: seq<Part>, p: Part)
    requires NoEmptyText(n)
    ensures NoEmptyText(Fuse(n, p))
    ensures MediaOf(Fuse(n, p)) == MediaOf(n) + if p.Media? then [p] else []
    ensures TextOf(Fuse(n, p)) == OnLines(TextOf(n), if p.Text? then p.text else "")
  {
    assert Front(n + [p]) == n;
    if p != Text("") && p.Text? && n != [] && Last(n).Text? {
      assert Front(Front(n) + [Text(Last(n).text + "\n" + p.text)]) == Front(n);
      assert Last(n) != Text("");
      LinesAssociate(TextOf(Front(n)), Last(n).text, p.text);
    }
  }

  /** The normal form has the same text and the same media. */
  lemma {:induction false} NormalKeeps(ps: seq<Part>)
    ensures NoEmptyText(Normal(ps)) && TextOf(Normal(ps)) == TextOf(ps) && MediaOf(Normal(ps)) == MediaOf(ps)
  {
    if ps != [] {
      NormalKeeps(Front(ps));
      FuseKeeps(Normal(Front(ps)), Last(ps));
    }
  }

  /** Message.Text only depends on the normal form. */
  lemma TextOfPieces(m: Msg)
    requires OneForm(m)
    ensures MessageText(m) == TextOf(Pieces(m))
  {
    if m.content != "" {
      assert Pieces(m) == [Text(m.content)];
      assert Front(Pieces(m)) == [];
    } else {
      assert Pieces(m) == m.parts;
    }
  }

  // ---- Groups ----

  /** Whether `b` right after `a` is folded into it. */
  predicate Joins(a: Msg, b: Msg) {
    a.role == b.role && b.role != ROLE_TOOL && b.role != ROLE_SYSTEM && a.reasoning.None? && b.reasoning.None?
  }

  /** The longest runs of messages that join. */
  function Groups(ms: seq<Msg>): seq<seq<Msg>> {
    if ms == [] then [] else AddTo(Groups(Front(ms)), |ms| > 1 && Joins(ms[|ms| - 2], Last(ms)), Last(ms))
  }

  function AddTo(gs: seq<seq<Msg>>, joins: bool, m: Msg): seq<seq<Msg>> {
    if joins && gs != [] then Front(gs) + [Last(gs) + [m]] else gs + [[m]]
  }

  /** All the messages of a group can join each other. */
  predicate IsGroup(g: seq<Msg>) {
    g != [] && forall i, j | 0 <= i < j < |g| :: Joins(g[i], g[j])
  }

  /** Where group `i` ends and the next begins the messages do not join. */
  predicate Boundary(gs: seq<seq<Msg>>, i: nat) {
    i + 1 < |gs| && gs[i] != [] && gs[i + 1] != [] && !Joins(Last(gs[i]), gs[i + 1][0])
  }

  predicate Separate(gs: seq<seq<Msg>>) {
    forall i: nat | i < |gs| - 1 :: Boundary(gs, i)
  }

  predicate AllGroups(gs: seq<seq<Msg>>) {
    forall i | 0 <= i < |gs| :: IsGroup(gs[i])
  }

  lemma GroupGrows(g: seq<Msg>, m: Msg)
    requires IsGroup(g) && Joins(Last(g), m)
    ensures IsGroup(g + [m])
  {
    forall i, j | 0 <= i < j < |g| + 1 ensures Joins((g + [m])[i], (g + [m])[j]) {
      if j == |g| && i < |g| - 1 { assert Joins(g[i], g[|g| - 1]); }
    }
  }

  lemma LastGroupGrows(gs: seq<seq<Msg>>, m: Msg)
    requires gs != [] && AllGroups(gs) && Separate(gs) && Joins(Last(Last(gs)), m)
    ensures var r := Front(gs) + [Last(gs) + [m]]; AllGroups(r) && Separate(r) && Concat(r) == Concat(gs) + [m]
  {
    GroupGrows(Last(gs), m);
    var r := Front(gs) + [Last(gs) + [m]];
    assert Front(r) == Front(gs);
    forall i: nat | i < |r| - 1 ensures Boundary(r, i) { assert Boundary(gs, i); }
  }

  lemma GroupOpens(gs: seq<seq<Msg>>, m: Msg)
    requires AllGroups(gs) && Separate(gs) && (gs != [] ==> !Joins(Last(Last(gs)), m))
    ensures var r := gs + [[m]]; AllGroups(r) && Separate(r) && Concat(r) == Concat(gs) + [m]
  {
    var r := gs + [[m]];
    assert Front(r) == gs;
    forall i: nat | i < |r| - 1 ensures Boundary(r, i) {
      if i < |gs| - 1 { assert Boundary(gs, i); }
    }
  }

  /** Groups cut the list without loss, into runs that join, and only where messages do not join. */
  lemma {:induction false} GroupsPartition(ms: seq<Msg>)
    ensures Concat(Groups(ms)) == ms && AllGroups(Groups(ms)) && Separate(Groups(ms))
    ensures ms != [] ==> Groups(ms) != [] && Last(Last(Groups(ms))) == Last(ms)
  {
    hide AllGroups, Separate, Joins, Concat;
    if ms == [] {
      NoGroups();
    } else {
      GroupsPartition(Front(ms));
      var before := Groups(Front(ms));
      if |ms| == 1 {
        assert Front(ms) == [];
        GroupOpens(before, Last(ms));
      } else {
        assert Last(Front(ms)) == ms[|ms| - 2];
        if Joins(ms[|ms| - 2], Last(ms)) { LastGroupGrows(before, Last(ms)); } else { GroupOpens(before, Last(ms)); }
      }
      assert Front(ms) + [Last(ms)] == ms;
    }
  }

  lemma NoGroups()
    ensures Concat<Msg>([]) == [] && AllGroups([]) && Separate([])
  {
  }

  // ---- Merging ----

  /** Folding `m` into `c`. */
  function Absorb(c: Msg, m: Msg): Msg {
    var (content, parts) := AbsorbBody(c.content, c.parts, m.content, m.parts);
    c.(content := content, parts := parts, calls := c.calls + m.calls,
        cache := if m.cache.Some? then m.cache else c.cache)
  }

  /** Text in front of parts becomes a part. */
  function Promote(content: string, parts: seq<Part>, more: seq<Part>): (string, seq<Part>) {
    if content != "" && (parts != [] || more != []) then ("", [Text(content)] + parts) else (content, parts)
  }

  function AbsorbText(content: string, parts: seq<Part>, text: string): (string, seq<Part>) {
    if text == "" then (content, parts)
    else if parts != [] then (content, parts + [Text(text)])
    else (if content != "" then content + "\n" + text else text, parts)
  }

  function AbsorbBody(content: string, parts: seq<Part>, text: string, more: seq<Part>): (string, seq<Part>) {
    var p := Promote(content, parts, more);
    var q := AbsorbText(p.0, p.1, text);
    (q.0, q.1 + more)
  }

  function Combined(g: seq<Msg>): Msg
    requires g != []
  {
    if |g| == 1 then g[0] else Absorb(Combined(Front(g)), Last(g))
  }

  function Merge(ms: seq<Msg>): seq<Msg> {
    CombineEach(Groups(ms))
  }

  function CombineEach(gs: seq<seq<Msg>>): seq<Msg> {
    seq(|gs|, i requires 0 <= i < |gs| =>
      if gs[i] == [] then Msg("", "", [], [], "", "", None, None) else Combined(gs[i]))
  }

  lemma AbsorbMeans(c: Msg, m: Msg)
    requires OneForm(c) && OneForm(m)
    ensures OneForm(Absorb(c, m))
    ensures Normal(Pieces(Absorb(c, m))) == Normal(Pieces(c) + Pieces(m))
  {
    if c.parts == [] && m.parts == [] && c.content != "" && m.content != "" {
      TextsFuse([], c.content, m.content);
      assert [] + [Text(c.content), Text(m.content)] == Pieces(c) + Pieces(m);
      assert [] + [Text(c.content + "\n" + m.content)] == Pieces(Absorb(c, m));
    } else {
      assert Pieces(Absorb(c, m)) == Pieces(c) + Pieces(m);
    }
  }

  /** A merged group says what its messages said, in order, and carries all their tool calls and the last breakpoint. */
  lemma {:induction false} CombinedMeans(g: seq<Msg>)
    requires g != [] && forall m | m in g :: OneForm(m)
    ensures OneForm(Combined(g)) && Normal(Pieces(Combined(g))) == Normal(AllPieces(g))
  {
    if |g| == 1 {
      assert Front(g) == [];
      assert AllPieces(g) == Pieces(g[0]);
    } else {
      CombinedMeans(Front(g));
      var c := Combined(Front(g));
      AbsorbMeans(c, Last(g));
      NormalExtends(Pieces(c), AllPieces(Front(g)), Pieces(Last(g)));
    }
  }

  lemma {:induction false} CombinedFields(g: seq<Msg>)
    requires g != []
    ensures var c := Combined(g);
      && c.role == g[0].role && c.callID == g[0].callID && c.name == g[0].name && c.reasoning == g[0].reasoning
      && c.calls == AllCalls(g) && c.cache == LastCache(g)
  {
    if |g| == 1 {
      assert Front(g) == [];
    } else {
      CombinedFields(Front(g));
    }
  }

  /** Each merged message has the text of its group, one text per line, and the media in order. */
  lemma GroupText(g: seq<Msg>)
    requires g != [] && forall m | m in g :: OneForm(m)
    ensures MessageText(Combined(g)) == TextOf(AllPieces(g))
    ensures MediaOf(Pieces(Combined(g))) == MediaOf(AllPieces(g))
  {
    CombinedMeans(g);
    TextOfPieces(Combined(g));
    NormalKeeps(Pieces(Combined(g)));
    NormalKeeps(AllPieces(g));
  }

  // ---- The whole list ----

  /** What one message adds outside the system prompt: its tool calls, its media, its reasoning. */
  function CallsOf(m: Msg): seq<string> {
    if m.role == ROLE_SYSTEM then [] else m.calls
  }

  function MediaIn(m: Msg): seq<Part> {
    if m.role == ROLE_SYSTEM then [] else MediaOf(Pieces(m))
  }

  function ReasoningOf(m: Msg): seq<string> {
    if m.role == ROLE_SYSTEM || m.reasoning.None? then [] else [m.reasoning.value]
  }

  /** A tool message, or one with reasoning, is never folded into another. */
  function Untouched(m: Msg): seq<Msg> {
    if m.role == ROLE_SYSTEM then [] else if m.role == ROLE_TOOL || m.reasoning.Some? then [m] else []
  }

  lemma {:induction false} MediaOfSum(a: seq<Part>, b: seq<Part>)
    ensures MediaOf(a + b) == MediaOf(a) + MediaOf(b)
  {
    if b == [] {
      assert a + b == a;
    } else {
      assert Front(a + b) == a + Front(b);
      MediaOfSum(a, Front(b));
    }
  }

  /** Combining each group loses nothing that combining one group does not lose. */
  lemma {:induction false} EachKeeps<T>(f: Msg -> seq<T>, gs: seq<seq<Msg>>)
    requires forall i | 0 <= i < |gs| :: gs[i] != [] && f(Combined(gs[i])) == FlatMap(f, gs[i])
    ensures FlatMap(f, CombineEach(gs)) == FlatMap(f, Concat(gs))
  {
    hide Combined;
    if gs != [] {
      EachKeeps(f, Front(gs));
      assert Front(CombineEach(gs)) == CombineEach(Front(gs));
      FlatMapSum(f, Concat(Front(gs)), Last(gs));
    }
  }

  lemma {:induction false} GroupKeepsCalls(g: seq<Msg>)
    requires g != [] && forall m | m in g :: m.role == g[0].role
    ensures FlatMap(CallsOf, g) == CallsOf(Combined(g))
  {
    CombinedFields(g);
    if |g| == 1 {
      assert Front(g) == [];
    } else {
      GroupKeepsCalls(Front(g));
      CombinedFields(Front(g));
    }
  }

  lemma {:induction false} GroupKeepsMedia(g: seq<Msg>)
    requires g != [] && forall m | m in g :: m.role == g[0].role
    ensures FlatMap(MediaIn, g) == if g[0].role == ROLE_SYSTEM then [] else MediaOf(AllPieces(g))
  {
    MediaOfSum(AllPieces(Front(g)), Pieces(Last(g)));
    if |g| == 1 {
      assert Front(g) == [];
    } else {
      GroupKeepsMedia(Front(g));
    }
  }

  lemma {:induction false} NoReasoning(g: seq<Msg>)
    requires forall m | m in g :: m.reasoning.None?
    ensures FlatMap(ReasoningOf, g) == []
  {
    if g != [] { NoReasoning(Front(g)); }
  }

  lemma GroupKeepsReasoning(g: seq<Msg>)
    requires IsGroup(g)
    ensures FlatMap(ReasoningOf, g) == ReasoningOf(Combined(g))
  {
    CombinedFields(g);
    if |g| == 1 {
      assert Front(g) == [];
    } else {
      assert Joins(g[0], g[1]);
      forall m | m in g ensures m.reasoning.None? {
        var i :| 0 <= i < |g| && g[i] == m;
        if i > 0 { assert Joins(g[0], g[i]); }
      }
      NoReasoning(g);
    }
  }

  lemma {:induction false} NoneUntouched(g: seq<Msg>)
    requires forall m | m in g :: m.reasoning.None? && m.role != ROLE_TOOL
    ensures FlatMap(Untouched, g) == []
  {
    if g != [] { NoneUntouched(Front(g)); }
  }

  lemma GroupKeepsUntouched(g: seq<Msg>)
    requires IsGroup(g)
    ensures FlatMap(Untouched, g) == Untouched(Combined(g))
  {
    CombinedFields(g);
    if |g| == 1 {
      assert Front(g) == [];
    } else {
      assert Joins(g[0], g[1]);
      forall m | m in g ensures m.reasoning.None? && m.role != ROLE_TOOL {
        var i :| 0 <= i < |g| && g[i] == m;
        if i > 0 { assert Joins(g[0], g[i]); }
      }
      NoneUntouched(g);
    }
  }

  lemma OneRole(g: seq<Msg>)
    requires IsGroup(g)
    ensures forall m | m in g :: m.role == g[0].role
  {
    forall m | m in g ensures m.role == g[0].role {
      var i :| 0 <= i < |g| && g[i] == m;
      if i > 0 { assert Joins(g[0], g[i]); }
    }
  }

  lemma {:induction false} InConcat<T>(gs: seq<seq<T>>, g: seq<T>, x: T)
    requires g in gs && x in g
    ensures x in Concat(gs)
  {
    if g != Last(gs) { InConcat(Front(gs), g, x); }
  }

  /** Merging keeps every tool call, every reasoning and every media part outside the system prompt, in order. */
  lemma MergeKeeps(ms: seq<Msg>)
    requires forall m | m in ms :: OneForm(m)
    ensures FlatMap(CallsOf, Merge(ms)) == FlatMap(CallsOf, ms)
    ensures FlatMap(ReasoningOf, Merge(ms)) == FlatMap(ReasoningOf, ms)
    ensures FlatMap(MediaIn, Merge(ms)) == FlatMap(MediaIn, ms)
  {
    var gs := Groups(ms);
    GroupsPartition(ms);
    forall i | 0 <= i < |gs|
      ensures gs[i] != []
      ensures CallsOf(Combined(gs[i])) == FlatMap(CallsOf, gs[i])
      ensures ReasoningOf(Combined(gs[i])) == FlatMap(ReasoningOf, gs[i])
      ensures MediaIn(Combined(gs[i])) == FlatMap(MediaIn, gs[i])
    {
      var g := gs[i];
      assert IsGroup(g);
      forall m | m in g ensures OneForm(m) { InConcat(gs, g, m); }
      OneRole(g);
      GroupKeepsCalls(g);
      GroupKeepsReasoning(g);
      GroupKeepsMedia(g);
      GroupText(g);
      CombinedFields(g);
    }
    EachKeeps(CallsOf, gs);
    EachKeeps(ReasoningOf, gs);
    EachKeeps(MediaIn, gs);
  }

  /** Merging leaves tool messages and messages with reasoning as they are, in order. */
  lemma MergeLeaves(ms: seq<Msg>)
    ensures FlatMap(Untouched, Merge(ms)) == FlatMap(Untouched, ms)
  {
    var gs := Groups(ms);
    GroupsPartition(ms);
    forall i | 0 <= i < |gs| ensures gs[i] != [] && Untouched(Combined(gs[i])) == FlatMap(Untouched, gs[i]) {
      assert IsGroup(gs[i]);
      GroupKeepsUntouched(gs[i]);
    }
    EachKeeps(Untouched, gs);
  }

  /** A combined group joins with its neighbours exactly when its end messages do. */
  lemma CombinedJoins(a: seq<Msg>, b: seq<Msg>)
    requires IsGroup(a) && IsGroup(b)
    ensures Joins(Combined(a), Combined(b)) <==> Joins(Last(a), b[0])
  {
    CombinedFields(a);
    CombinedFields(b);
    if |a| > 1 { assert Joins(a[0], a[|a| - 1]); }
  }

  predicate Apart(ms: seq<Msg>, i: nat) {
    i + 1 < |ms| && !Joins(ms[i], ms[i + 1])
  }

  /** No two neighbours share a role, unless they are tool or system messages or one of them carries reasoning. */
  predicate AllApart(ms: seq<Msg>) {
    forall i: nat | i < |ms| - 1 :: Apart(ms, i)
  }

  lemma MergedApart(ms: seq<Msg>)
    ensures AllApart(Merge(ms))
  {
    var gs := Groups(ms);
    GroupsPartition(ms);
    forall i: nat | i < |gs| - 1 ensures Apart(Merge(ms), i) {
      assert Boundary(gs, i);
      assert IsGroup(gs[i]) && IsGroup(gs[i + 1]);
      CombinedJoins(gs[i], gs[i + 1]);
    }
  }

  /** Where nothing joins, merging changes nothing. */
  lemma {:induction false} ApartUnchanged(ms: seq<Msg>)
    requires AllApart(ms)
    ensures Merge(ms) == ms
  {
    if ms != [] {
      forall i: nat | i < |ms| - 2 ensures Apart(Front(ms), i) { assert Apart(ms, i); }
      ApartUnchanged(Front(ms));
      if |ms| > 1 { assert Apart(ms, |ms| - 2); }
      assert Groups(ms) == Groups(Front(ms)) + [[Last(ms)]];
      assert Merge(ms) == Merge(Front(ms)) + [Last(ms)];
    }
  }

  // ---- System messages ----

  function Systems(ms: seq<Msg>): seq<Msg> {
    if ms == [] then [] else Systems(Front(ms)) + if Last(ms).role == ROLE_SYSTEM then [Last(ms)] else []
  }

  function NonSystem(ms: seq<Msg>): seq<Msg> {
    if ms == [] then [] else NonSystem(Front(ms)) + if Last(ms).role == ROLE_SYSTEM then [] else [Last(ms)]
  }

  /** The pieces a system message contributes: its Parts, and its Content only without any. */
  function Contributed(m: Msg): seq<Part> {
    if m.parts != [] then m.parts else if m.content != "" then [Text(m.content)] else []
  }

  function TextsIn(ps: seq<Part>): seq<string> {
    if ps == [] then [] else TextsIn(Front(ps)) + if Last(ps).Text? then [Last(ps).text] else []
  }

  function Join(texts: seq<string>, sep: string): string {
    if texts == [] then "" else if |texts| == 1 then texts[0] else Join(Front(texts), sep) + sep + Last(texts)
  }

  predicate HasMedia(ps: seq<Part>) {
    exists i :: 0 <= i < |ps| && ps[i].Media?
  }

  function NonEmpty(texts: seq<string>): seq<string> {
    if texts == [] then [] else NonEmpty(Front(texts)) + if Last(texts) == "" then [] else [Last(texts)]
  }

  /** Message.Text of parts is their texts that are not empty, with line breaks between them. */
  lemma {:induction false} TextIsJoined(ps: seq<Part>)
    ensures TextOf(ps) == Join(NonEmpty(TextsIn(ps)), "\n")
    ensures TextOf(ps) == "" <==> NonEmpty(TextsIn(ps)) == []
  {
    if ps != [] {
      TextIsJoined(Front(ps));
      var before, p := TextsIn(Front(ps)), Last(ps);
      if p.Text? {
        assert Front(before + [p.text]) == before && Last(before + [p.text]) == p.text;
        if p.text != "" { JoinOneMore(NonEmpty(before), p.text, "\n"); }
        assert NonEmpty(before) + [] == NonEmpty(before);
      } else {
        assert before + [] == before;
      }
    }
  }

  function FirstCache(ms: seq<Msg>): Option<string> {
    if ms == [] then None else if FirstCache(Front(ms)).Some? then FirstCache(Front(ms)) else Last(ms).cache
  }

  function SystemMessage(systems: seq<Msg>): Msg {
    var ps := FlatMap(Contributed, systems);
    Msg(ROLE_SYSTEM, if HasMedia(ps) then "" else Join(TextsIn(ps), "\n\n"), if HasMedia(ps) then ps else [],
        [], "", "",
        FirstCache(systems), None)
  }

  function Consolidate(ms: seq<Msg>): seq<Msg> {
    if Systems(ms) == [] then ms else [SystemMessage(Systems(ms))] + NonSystem(ms)
  }

  function MergeConsecutive(ms: seq<Msg>): seq<Msg> {
    if |ms| <= 1 then ms else Merge(Consolidate(ms))
  }

  lemma {:induction false} NonSystemAmong(ms: seq<Msg>, m: Msg)
    requires m in NonSystem(ms)
    ensures m in ms && m.role != ROLE_SYSTEM
  {
    if m in NonSystem(Front(ms)) { NonSystemAmong(Front(ms), m); }
  }

  lemma {:induction false} NoSystems(ms: seq<Msg>)
    requires Systems(ms) == []
    ensures NonSystem(ms) == ms
  {
    if ms != [] {
      NoSystems(Front(ms));
      assert Front(ms) + [Last(ms)] == ms;
    }
  }

  lemma {:induction false} SystemsNone(ms: seq<Msg>)
    requires forall m | m in ms :: m.role != ROLE_SYSTEM
    ensures Systems(ms) == []
  {
    if ms != [] {
      assert Last(ms) in ms;
      SystemsNone(Front(ms));
    }
  }

  lemma ConsolidatedForms(ms: seq<Msg>)
    requires forall m | m in ms :: OneForm(m)
    ensures forall m | m in Consolidate(ms) :: OneForm(m)
  {
    forall m | m in NonSystem(ms) ensures OneForm(m) { NonSystemAmong(ms, m); }
  }

  lemma {:induction false} NonSystemKeeps<T>(f: Msg -> seq<T>, ms: seq<Msg>)
    requires forall m | m in ms && m.role == ROLE_SYSTEM :: f(m) == []
    ensures FlatMap(f, NonSystem(ms)) == FlatMap(f, ms)
  {
    if ms != [] {
      var m := Last(ms);
      assert m in ms;
      NonSystemKeeps(f, Front(ms));
      FlatMapSum(f, NonSystem(Front(ms)), [m]);
      assert Front([m]) == [];
      assert FlatMap(f, [m]) == f(m);
      assert NonSystem(Front(ms)) + [] == NonSystem(Front(ms));
    }
  }

  lemma ConsolidateKeeps<T>(f: Msg -> seq<T>, ms: seq<Msg>)
    requires forall m: Msg | m.role == ROLE_SYSTEM :: f(m) == []
    ensures FlatMap(f, Consolidate(ms)) == FlatMap(f, ms)
  {
    if Systems(ms) != [] {
      var s := SystemMessage(Systems(ms));
      NonSystemKeeps(f, ms);
      FlatMapSum(f, [s], NonSystem(ms));
      assert Front([s]) == [];
      assert FlatMap(f, [s]) == f(s) == [];
    }
  }

  /** The conversation keeps every tool call, reasoning and media part outside the system prompt, in order. */
  lemma ConversationKept(ms: seq<Msg>)
    requires forall m | m in ms :: OneForm(m)
    ensures FlatMap(CallsOf, MergeConsecutive(ms)) == FlatMap(CallsOf, ms)
    ensures FlatMap(ReasoningOf, MergeConsecutive(ms)) == FlatMap(ReasoningOf, ms)
    ensures FlatMap(MediaIn, MergeConsecutive(ms)) == FlatMap(MediaIn, ms)
  {
    if |ms| > 1 {
      ConsolidatedForms(ms);
      MergeKeeps(Consolidate(ms));
      ConsolidateKeeps(CallsOf, ms);
      ConsolidateKeeps(ReasoningOf, ms);
      ConsolidateKeeps(MediaIn, ms);
    }
  }

  /** The conversation keeps tool messages and messages with reasoning as they are, in order. */
  lemma UntouchedKept(ms: seq<Msg>)
    ensures FlatMap(Untouched, MergeConsecutive(ms)) == FlatMap(Untouched, ms)
  {
    if |ms| > 1 {
      MergeLeaves(Consolidate(ms));
      ConsolidateKeeps(Untouched, ms);
    }
  }

  /** Every message that comes out speaks for one group, all of one role: it has the group's text, one text per line,
      and its media. */
  lemma GroupsKept(ms: seq<Msg>, i: nat)
    requires forall m | m in ms :: OneForm(m)
    requires |ms| > 1 && i < |MergeConsecutive(ms)|
    ensures var g, r := Groups(Consolidate(ms))[i], MergeConsecutive(ms)[i];
      && g != [] && (forall m | m in g :: m.role == r.role) && OneForm(r)
      && MessageText(r) == TextOf(AllPieces(g)) && MediaOf(Pieces(r)) == MediaOf(AllPieces(g))
      && r.calls == AllCalls(g) && r.cache == LastCache(g)
  {
    var cs := Consolidate(ms);
    var gs := Groups(cs);
    ConsolidatedForms(ms);
    GroupsPartition(cs);
    assert IsGroup(gs[i]);
    OneRole(gs[i]);
    forall m | m in gs[i] ensures OneForm(m) { InConcat(gs, gs[i], m); }
    GroupText(gs[i]);
    CombinedMeans(gs[i]);
    CombinedFields(gs[i]);
  }

  // ---- Once is enough ----

  lemma SystemMessageAgain(systems: seq<Msg>)
    ensures SystemMessage([SystemMessage(systems)]) == SystemMessage(systems)
  {
    var s := SystemMessage(systems);
    assert Front([s]) == [];
    assert FlatMap(Contributed, []) == [];
    assert FlatMap(Contributed, [s]) == [] + Contributed(s) == Contributed(s);
    if !HasMedia(FlatMap(Contributed, systems)) && s.content != "" {
      assert Front(Contributed(s)) == [];
      assert TextsIn(Contributed(s)) == [s.content];
    }
    assert FirstCache([]) == None;
  }

  lemma AddInFront(g: seq<Msg>, gs: seq<seq<Msg>>, joins: bool, m: Msg)
    requires joins ==> gs != []
    ensures AddTo([g] + gs, joins, m) == [g] + AddTo(gs, joins, m)
  {
    if joins {
      assert Front([g] + gs) == [g] + Front(gs);
    }
  }

  /** A system message never joins, so merging leaves it in front. */
  lemma {:induction false} SystemInFront(s: Msg, ns: seq<Msg>)
    requires s.role == ROLE_SYSTEM
    ensures Groups([s] + ns) == [[s]] + Groups(ns)
  {
    hide AddTo;
    var ms := [s] + ns;
    if ns == [] {
      NothingInFront(s);
      assert ms == [s];
    } else {
      assert Front(ms) == [s] + Front(ns) && Last(ms) == Last(ns);
      SystemInFront(s, Front(ns));
      assert ms[|ms| - 2] == if |ns| > 1 then ns[|ns| - 2] else s;
      if |ns| > 1 { GroupsOpen(Front(ns)); }
      AddInFront([s], Groups(Front(ns)), |ns| > 1 && Joins(ns[|ns| - 2], Last(ns)), Last(ns));
    }
  }

  lemma GroupsOpen(ms: seq<Msg>)
    requires ms != []
    ensures Groups(ms) != []
  {
  }

  lemma NothingInFront(s: Msg)
    ensures Groups([s]) == [[s]] + Groups([])
  {
    assert Front([s]) == [];
    assert Groups([]) == [];
  }

  lemma CombinedOne(s: Msg)
    ensures Combined([s]) == s
  {
  }

  lemma MergeInFront(s: Msg, ns: seq<Msg>)
    requires s.role == ROLE_SYSTEM
    ensures Merge([s] + ns) == [s] + Merge(ns)
  {
    hide Groups, Combined;
    SystemInFront(s, ns);
    CombinedOne(s);
  }

  lemma NoSystemAfter(ns: seq<Msg>)
    requires forall m | m in ns :: m.role != ROLE_SYSTEM
    ensures forall m | m in Merge(ns) :: m.role != ROLE_SYSTEM
  {
    var gs := Groups(ns);
    GroupsPartition(ns);
    forall m | m in Merge(ns) ensures m.role != ROLE_SYSTEM {
      var i :| 0 <= i < |gs| && Merge(ns)[i] == m;
      assert IsGroup(gs[i]);
      CombinedFields(gs[i]);
      InConcat(gs, gs[i], gs[i][0]);
    }
  }

  lemma {:induction false} OneSystem(s: Msg, ns: seq<Msg>)
    requires s.role == ROLE_SYSTEM && forall m | m in ns :: m.role != ROLE_SYSTEM
    ensures Systems([s] + ns) == [s] && NonSystem([s] + ns) == ns
  {
    if ns == [] {
      assert [s] + ns == [s] && Front([s]) == [];
    } else {
      assert Front([s] + ns) == [s] + Front(ns);
      OneSystem(s, Front(ns));
      assert Last(ns) in ns;
      assert Front(ns) + [Last(ns)] == ns;
    }
  }

  /** The result holds at most one system message, the first, and otherwise the messages of the conversation merged. */
  lemma Shape(ms: seq<Msg>)
    requires |ms| > 1
    ensures MergeConsecutive(ms)
      == (if Systems(ms) == [] then [] else [SystemMessage(Systems(ms))]) + Merge(NonSystem(ms))
    ensures forall m | m in Merge(NonSystem(ms)) :: m.role != ROLE_SYSTEM
  {
    hide Merge, Systems, NonSystem;
    forall m | m in NonSystem(ms) ensures m.role != ROLE_SYSTEM { NonSystemAmong(ms, m); }
    NoSystemAfter(NonSystem(ms));
    if Systems(ms) != [] {
      var s := SystemMessage(Systems(ms));
      MergeInFront(s, NonSystem(ms));
    } else {
      NoSystems(ms);
    }
  }

  /** Two neighbours that need not be merged: they differ in role, or are tool messages, or one carries reasoning. */
  predicate KeptApart(a: Msg, b: Msg) {
    a.role != b.role || a.role == ROLE_TOOL || a.reasoning.Some? || b.reasoning.Some?
  }

  predicate IsSystem(m: Msg) {
    m.role == ROLE_SYSTEM
  }

  /** Merging what has been merged changes nothing, for nothing is left to merge. */
  lemma MergeIdempotent(ms: seq<Msg>)
    ensures var r := MergeConsecutive(ms);
      && MergeConsecutive(r) == r
      && (forall i: nat | i < |r| - 1 :: KeptApart(r[i], r[i + 1]))
      && (|ms| > 1 ==> forall i | 0 < i < |r| :: !IsSystem(r[i]))
  {
    MergedOnce(ms);
    var r := MergeConsecutive(ms);
    if |ms| > 1 {
      Shape(ms);
      forall i: nat | 0 < i < |r| ensures !IsSystem(r[i]) {
        assert r[i] in Merge(NonSystem(ms));
      }
      forall i: nat | i < |r| - 1 ensures KeptApart(r[i], r[i + 1]) { assert Apart(r, i); }
    }
  }

  lemma MergedOnce(ms: seq<Msg>)
    ensures MergeConsecutive(MergeConsecutive(ms)) == MergeConsecutive(ms)
    ensures AllApart(MergeConsecutive(ms))
  {
    var r := MergeConsecutive(ms);
    if |ms| > 1 {
      Shape(ms);
      MergedApart(Consolidate(ms));
      var ns := Merge(NonSystem(ms));
      if Systems(ms) == [] {
        SystemsNone(r);
      } else {
        OneSystem(SystemMessage(Systems(ms)), ns);
        SystemMessageAgain(Systems(ms));
      }
      assert Consolidate(r) == r;
      ApartUnchanged(r);
    }
  }

  /** The system message says all that the system messages said: as it was if media is among it, else as one text. */
  lemma {:induction false} ContributedIsAll(systems: seq<Msg>)
    requires forall m | m in systems :: OneForm(m)
    ensures FlatMap(Contributed, systems) == AllPieces(systems)
  {
    if systems != [] {
      ContributedIsAll(Front(systems));
      var m := Last(systems);
      assert m in systems && OneForm(m);
      assert [] + m.parts == m.parts;
    }
  }

  /** The system message says all that the system messages said, and carries the first of their cache breakpoints. */
  lemma SystemSaysAll(systems: seq<Msg>)
    requires forall m | m in systems :: OneForm(m)
    ensures var s := SystemMessage(systems);
      && s.role == ROLE_SYSTEM && s.calls == [] && s.callID == "" && s.name == "" && s.reasoning.None?
      && (s.cache.None? <==> forall i | 0 <= i < |systems| :: systems[i].cache.None?)
      && (s.cache.Some? ==> exists i :: 0 <= i < |systems| && FirstBreakpoint(systems, i, s.cache))
    ensures var ps, s := AllPieces(systems), SystemMessage(systems);
      && OneForm(s)
      && (HasMedia(ps) ==> Pieces(s) == ps)
      && (!HasMedia(ps) ==> MessageText(s) == Join(TextsIn(ps), "\n\n"))
  {
    ContributedIsAll(systems);
    FirstCacheIs(systems);
  }

  predicate FirstBreakpoint(systems: seq<Msg>, i: nat, cache: Option<string>)
    requires i < |systems|
  {
    systems[i].cache == cache && forall j | 0 <= j < i :: systems[j].cache.None?
  }

  lemma {:induction false} FirstCacheIs(ms: seq<Msg>)
    ensures FirstCache(ms).None? <==> forall i | 0 <= i < |ms| :: ms[i].cache.None?
    ensures FirstCache(ms).Some? ==> exists i :: 0 <= i < |ms| && FirstBreakpoint(ms, i, FirstCache(ms))
  {
    if ms != [] {
      FirstCacheIs(Front(ms));
      if FirstCache(Front(ms)).Some? {
        var i :| 0 <= i < |ms| - 1 && FirstBreakpoint(Front(ms), i, FirstCache(ms));
        assert FirstBreakpoint(ms, i, FirstCache(ms));
      } else {
        assert forall i | 0 <= i < |ms| - 1 :: ms[i] == Front(ms)[i];
        if Last(ms).cache.Some? { assert FirstBreakpoint(ms, |ms| - 1, FirstCache(ms)); }
      }
    }
  }

  // ---- Steps of the loops ----

  /** What one more message does to the merged list. */
  function Next(r: seq<Msg>, m: Msg): seq<Msg> {
    if r != [] && Joins(Last(r), m) then Front(r) + [Absorb(Last(r), m)] else r + [m]
  }

  lemma MergeOneMore(ms: seq<Msg>, m: Msg)
    ensures Merge(ms + [m]) == Next(Merge(ms), m)
  {
    hide Groups, Combined, Absorb, Joins, AllGroups, Separate, Boundary, Concat;
    var gs := Groups(ms);
    GroupsPartition(ms);
    CombinedOne(m);
    GroupsOneMore(ms, m);
    if ms != [] {
      LastIsGroup(gs);
      OneIsGroup(m);
      CombinedJoins(Last(gs), [m]);
      if Joins(Last(ms), m) {
        CombinedOneMore(Last(gs), m);
        assert Merge(ms + [m]) == Front(Merge(ms)) + [Combined(Last(gs) + [m])];
      } else {
        assert Merge(ms + [m]) == Merge(ms) + [m];
      }
    } else {
      NoGroup();
    }
  }

  lemma NoGroup()
    ensures Groups([]) == []
  {
  }

  lemma GroupsOneMore(ms: seq<Msg>, m: Msg)
    ensures Groups(ms + [m]) == AddTo(Groups(ms), ms != [] && Joins(Last(ms), m), m)
  {
    assert Front(ms + [m]) == ms;
    if ms != [] { assert (ms + [m])[|ms| - 1] == Last(ms); }
  }

  lemma CombinedOneMore(g: seq<Msg>, m: Msg)
    requires g != []
    ensures Combined(g + [m]) == Absorb(Combined(g), m)
  {
    assert Front(g + [m]) == g;
  }

  lemma LastIsGroup(gs: seq<seq<Msg>>)
    requires gs != [] && AllGroups(gs)
    ensures IsGroup(Last(gs))
  {
  }

  lemma OneIsGroup(m: Msg)
    ensures IsGroup([m])
  {
  }

  lemma FilterOneMore(ms: seq<Msg>, m: Msg)
    ensures Systems(ms + [m]) == Systems(ms) + if m.role == ROLE_SYSTEM then [m] else []
    ensures NonSystem(ms + [m]) == NonSystem(ms) + if m.role == ROLE_SYSTEM then [] else [m]
  {
    assert Front(ms + [m]) == ms;
  }

  lemma FirstCacheOneMore(ms: seq<Msg>, m: Msg)
    ensures FirstCache(ms + [m]) == if FirstCache(ms).Some? then FirstCache(ms) else m.cache
  {
    assert Front(ms + [m]) == ms;
  }

  lemma ContributedOneMore(ms: seq<Msg>, m: Msg)
    ensures FlatMap(Contributed, ms + [m]) == FlatMap(Contributed, ms) + Contributed(m)
  {
    assert Front(ms + [m]) == ms;
  }

  lemma JoinOneMore(texts: seq<string>, t: string, sep: string)
    ensures Join(texts + [t], sep) == if texts == [] then t else Join(texts, sep) + sep + t
  {
    assert texts == [] ==> texts + [t] == [t];
    assert Front(texts + [t]) == texts;
  }

  lemma TextsInOneMore(ps: seq<Part>, p: Part)
    ensures TextsIn(ps + [p]) == TextsIn(ps) + if p.Text? then [p.text] else []
  {
    assert Front(ps + [p]) == ps;
  }
}

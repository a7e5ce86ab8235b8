/** The JSON grammar of RFC 8259, as parse trees and the text each one spells.
    A string stands for a sequence of bytes. */
module JsonGrammar {

  datatype Json =
    | Word(text: string)
    | Number(sign: string, digits: string, frac: string, exp: string)
    | Str(body: string)
    | Arr(elems: Elems)
    | Obj(members: Members)

  /** Array content (section 5), with the white space around each element. */
  datatype Elems =
    | NoElem(ws: string)
    | LastElem(pre: string, v: Json, post: string)
    | MoreElems(pre: string, v: Json, post: string, rest: Elems)

  /** Object content (section 4), with the white space around each key and value. */
  datatype Members =
    | NoMember(ws: string)
    | LastMember(pre: string, key: string, mid: string, lead: string, v: Json, post: string)
    | MoreMembers(pre: string, key: string, mid: string, lead: string, v: Json, post: string, rest: Members)

  predicate IsSpace(c: char) { c == ' ' || c == '\t' || c == '\n' || c == '\r' }

  predicate IsWs(s: string) { forall i | 0 <= i < |s| :: IsSpace(s[i]) }

  predicate IsDigit(c: char) { '0' <= c <= '9' }

  predicate IsHex(c: char) { IsDigit(c) || 'a' <= c <= 'f' || 'A' <= c <= 'F' }

  predicate AllDigits(s: string) { |s| > 0 && forall i | 0 <= i < |s| :: IsDigit(s[i]) }

  predicate IsInt(s: string) { s == "0" || (AllDigits(s) && s[0] != '0') }

  predicate IsFrac(s: string) { s == "" || (|s| > 1 && s[0] == '.' && AllDigits(s[1..])) }

  predicate IsExp(s: string) {
    || s == ""
    || (|s| > 1 && (s[0] == 'e' || s[0] == 'E')
        && (AllDigits(s[1..]) || (|s| > 2 && (s[1] == '+' || s[1] == '-') && AllDigits(s[2..]))))
  }

  /** String content (section 7): unescaped characters, two-character escapes and \u escapes. */
  predicate IsBody(s: string) {
    if s == "" then true
    else if s[0] == '\\' then
      && |s| >= 2
      && if s[1] == 'u'
         then |s| >= 6 && IsHex(s[2]) && IsHex(s[3]) && IsHex(s[4]) && IsHex(s[5]) && IsBody(s[6..])
         else s[1] in "\"\\/bfnrt" && IsBody(s[2..])
    else s[0] >= ' ' && s[0] != '"' && IsBody(s[1..])
  }

  predicate WF(v: Json) {
    match v
    case Word(t) => t == "true" || t == "false" || t == "null"
    case Number(sign, n, frac, exp) => (sign == "" || sign == "-") && IsInt(n) && IsFrac(frac) && IsExp(exp)
    case Str(b) => IsBody(b)
    case Arr(es) => ElemsWF(es)
    case Obj(ms) => MembersWF(ms)
  }

  predicate ElemsWF(es: Elems) {
    match es
    case NoElem(ws) => IsWs(ws)
    case LastElem(pre, v, post) => IsWs(pre) && WF(v) && IsWs(post)
    case MoreElems(pre, v, post, rest) => IsWs(pre) && WF(v) && IsWs(post) && !rest.NoElem? && ElemsWF(rest)
  }

  predicate MembersWF(ms: Members) {
    match ms
    case NoMember(ws) => IsWs(ws)
    case LastMember(pre, key, mid, lead, v, post) =>
      IsWs(pre) && IsBody(key) && IsWs(mid) && IsWs(lead) && WF(v) && IsWs(post)
    case MoreMembers(pre, key, mid, lead, v, post, rest) =>
      IsWs(pre) && IsBody(key) && IsWs(mid) && IsWs(lead) && WF(v) && IsWs(post) && !rest.NoMember? && MembersWF(rest)
  }

  function Text(v: Json): string {
    match v
    case Word(t) => t
    case Number(sign, n, frac, exp) => sign + n + frac + exp
    case Str(b) => "\"" + b + "\""
    case Arr(es) => "[" + ElemsText(es) + "]"
    case Obj(ms) => "{" + MembersText(ms) + "}"
  }

  function ElemsText(es: Elems): string {
    match es
    case NoElem(ws) => ws
    case LastElem(pre, v, post) => pre + Text(v) + post
    case MoreElems(pre, v, post, rest) => pre + Text(v) + post + "," + ElemsText(rest)
  }

  function MembersText(ms: Members): string {
    match ms
    case NoMember(ws) => ws
    case LastMember(pre, key, mid, lead, v, post) => MemberText(pre, key, mid, lead, Text(v)) + post
    case MoreMembers(pre, key, mid, lead, v, post, rest) =>
      MemberText(pre, key, mid, lead, Text(v)) + post + "," + MembersText(rest)
  }

  function MemberText(pre: string, key: string, mid: string, lead: string, value: string): string {
    pre + ("\"" + key + "\"") + mid + ":" + lead + value
  }

  /** `s` is a JSON text (section 2): one value with optional white space around it. */
  ghost predicate JsonText(s: string) {
    exists pre, v, post :: IsJsonText(s, pre, v, post)
  }

  ghost predicate IsJsonText(s: string, pre: string, v: Json, post: string) {
    IsWs(pre) && WF(v) && IsWs(post) && s == pre + Text(v) + post
  }

  /** `s` is exactly an object or an array. */
  ghost predicate Container(s: string) {
    exists v :: IsContainer(s, v)
  }

  ghost predicate IsContainer(s: string, v: Json) {
    (v.Arr? || v.Obj?) && WF(v) && s == Text(v)
  }
}

/** The bracket scanner that finds JSON values in model prose (structured.go). */
module JsonScan {
  import opened JsonGrammar
  import opened Options

  function Close(open: char): char {
    if open == '[' then ']' else '}'
  }

  predicate IsOpen(c: char) { c == '{' || c == '[' }

  function Shift(r: Option<nat>, n: nat): Option<nat> {
    match r case None => None case Some(k) => Some(k + n)
  }

  /** The bytes of `s` read until the bracket kind of `open` is balanced again: one case per branch of
      the scanner's switch, from a given state. */
  function Scan(s: string, open: char, depth: int, inString: bool, escaped: bool): Option<nat> {
    if s == "" then None
    else
      var c := s[0];
      if escaped then Shift(Scan(s[1..], open, depth, inString, false), 1)
      else if c == '\\' && inString then Shift(Scan(s[1..], open, depth, inString, true), 1)
      else if c == '"' then Shift(Scan(s[1..], open, depth, !inString, false), 1)
      else if inString then Shift(Scan(s[1..], open, depth, inString, false), 1)
      else if c == open then Shift(Scan(s[1..], open, depth + 1, inString, false), 1)
      else if c == Close(open) then
        if depth - 1 == 0 then Some(1) else Shift(Scan(s[1..], open, depth - 1, inString, false), 1)
      else Shift(Scan(s[1..], open, depth, inString, false), 1)
  }

  /** balancedJSONAt. */
  method BalancedJSONAt(s: string, start: nat) returns (r: Option<string>)
    requires start < |s|
    ensures r.None? <==> Scan(s[start..], s[start], 0, false, false).None?
    ensures r.Some? ==> var n := Scan(s[start..], s[start], 0, false, false).value;
                        start + n <= |s| && r.value == s[start..start + n]
  {
    var open := s[start];
    var close := if open == '[' then ']' else '}';
    var depth := 0;
    var inString, escaped := false, false;
    var i := start;
    while i < |s|
      invariant start <= i <= |s|
      invariant Scan(s[start..], open, 0, false, false)
        == Shift(Scan(s[i..], open, depth, inString, escaped), i - start)
    {
      var c := s[i];
      assert s[i..][1..] == s[i + 1..];
      if escaped {
        escaped := false;
      } else if c == '\\' && inString {
        escaped := true;
      } else if c == '"' {
        inString := !inString;
      } else if inString {
        // structural bytes inside strings do not count
      } else if c == open {
        depth := depth + 1;
      } else if c == close {
        depth := depth - 1;
        if depth == 0 {
          return Some(s[start..i + 1]);
        }
      }
      i := i + 1;
    }
    return None;
  }

  // ---- Whole grammar pieces leave the scanner's state alone ----

  /** Reading `t` at `depth` changes nothing, whatever follows. */
  ghost predicate Skips(t: string, open: char, depth: int, inString: bool) {
    forall rest: string :: SkipsBefore(t, rest, open, depth, inString)
  }

  ghost predicate SkipsBefore(t: string, rest: string, open: char, depth: int, inString: bool) {
    Scan(t + rest, open, depth, inString, false) == Shift(Scan(rest, open, depth, inString, false), |t|)
  }

  lemma SkipsConcat(a: string, b: string, open: char, depth: int, inString: bool)
    requires Skips(a, open, depth, inString) && Skips(b, open, depth, inString)
    ensures Skips(a + b, open, depth, inString)
  {
    forall rest: string ensures SkipsBefore(a + b, rest, open, depth, inString) {
      assert a + b + rest == a + (b + rest);
      assert SkipsBefore(a, b + rest, open, depth, inString) && SkipsBefore(b, rest, open, depth, inString);
    }
  }

  predicate Plain(s: string) {
    forall i | 0 <= i < |s| :: s[i] !in "{}[]\""
  }

  lemma {:induction false} PlainSkips(t: string, open: char, depth: int)
    requires Plain(t) && IsOpen(open)
    ensures Skips(t, open, depth, false)
  {
    forall rest: string ensures SkipsBefore(t, rest, open, depth, false) {
      if t == "" {
        assert t + rest == rest;
      } else {
        PlainSkips(t[1..], open, depth);
        assert SkipsBefore(t[1..], rest, open, depth, false);
        assert (t + rest)[1..] == t[1..] + rest;
      }
    }
  }

  lemma {:induction false} BodySkips(b: string, open: char, depth: int)
    requires IsBody(b)
    ensures Skips(b, open, depth, true)
  {
    forall rest: string ensures SkipsBefore(b, rest, open, depth, true) {
      if b == "" {
        assert b + rest == rest;
      } else {
        assert (b + rest)[1..] == b[1..] + rest;
        if b[0] != '\\' {
          BodySkips(b[1..], open, depth);
          assert SkipsBefore(b[1..], rest, open, depth, true);
        } else {
          assert (b[1..] + rest)[1..] == b[2..] + rest;
          if b[1] != 'u' {
            BodySkips(b[2..], open, depth);
            assert SkipsBefore(b[2..], rest, open, depth, true);
          } else {
            BodySkips(b[6..], open, depth);
            HexSkips(b[2..6], open, depth);
            assert SkipsBefore(b[2..6], b[6..] + rest, open, depth, true);
            assert SkipsBefore(b[6..], rest, open, depth, true);
            assert b[2..] + rest == b[2..6] + (b[6..] + rest);
          }
        }
      }
    }
  }

  lemma {:induction false} HexSkips(t: string, open: char, depth: int)
    requires forall i | 0 <= i < |t| :: IsHex(t[i])
    ensures Skips(t, open, depth, true)
  {
    forall rest: string ensures SkipsBefore(t, rest, open, depth, true) {
      if t == "" {
        assert t + rest == rest;
      } else {
        HexSkips(t[1..], open, depth);
        assert SkipsBefore(t[1..], rest, open, depth, true);
        assert (t + rest)[1..] == t[1..] + rest;
      }
    }
  }

  lemma StringSkips(b: string, open: char, depth: int)
    requires IsBody(b) && IsOpen(open)
    ensures Skips("\"" + b + "\"", open, depth, false)
  {
    BodySkips(b, open, depth);
    forall rest: string ensures SkipsBefore("\"" + b + "\"", rest, open, depth, false) {
      var text := "\"" + b + "\"" + rest;
      assert text[1..] == b + ("\"" + rest);
      assert SkipsBefore(b, "\"" + rest, open, depth, true);
      assert ("\"" + rest)[1..] == rest;
    }
  }

  /** A bracketed piece: the inside is read one level deeper when its brackets are the counted kind. */
  lemma BracketSkips(inner: string, open: char, depth: int, bracket: char)
    requires IsOpen(open) && IsOpen(bracket) && depth >= 1
    requires Skips(inner, open, if bracket == open then depth + 1 else depth, false)
    ensures Skips([bracket] + inner + [Close(bracket)], open, depth, false)
  {
    var d := if bracket == open then depth + 1 else depth;
    forall rest: string ensures SkipsBefore([bracket] + inner + [Close(bracket)], rest, open, depth, false) {
      var text := [bracket] + inner + [Close(bracket)] + rest;
      assert text[1..] == inner + ([Close(bracket)] + rest);
      assert SkipsBefore(inner, [Close(bracket)] + rest, open, d, false);
      assert ([Close(bracket)] + rest)[1..] == rest;
    }
  }

  lemma NumberPlain(v: Json)
    requires v.Number? && WF(v)
    ensures Plain(Text(v)) && |Text(v)| > 0 && (Text(v)[0] == '-' || IsDigit(Text(v)[0]))
  {
    FracPlain(v.frac);
    ExpPlain(v.exp);
  }

  lemma FracPlain(s: string)
    requires IsFrac(s)
    ensures Plain(s)
  {
    if s != "" {
      forall i | 0 <= i < |s| ensures s[i] !in "{}[]\"" {
        if i > 0 { assert IsDigit(s[1..][i - 1]); }
      }
    }
  }

  lemma ExpPlain(s: string)
    requires IsExp(s)
    ensures Plain(s)
  {
    if s != "" {
      forall i | 0 <= i < |s| ensures s[i] !in "{}[]\"" {
        if i > 0 && AllDigits(s[1..]) { assert IsDigit(s[1..][i - 1]); }
        else if i > 1 { assert IsDigit(s[2..][i - 2]); }
      }
    }
  }

  lemma {:induction false} ValueSkips(v: Json, open: char, depth: int)
    requires WF(v) && IsOpen(open) && depth >= 1
    ensures Skips(Text(v), open, depth, false)
    decreases v, 0
  {
    match v
    case Word(t) => PlainSkips(t, open, depth);
    case Number(_, _, _, _) =>
      NumberPlain(v);
      PlainSkips(Text(v), open, depth);
    case Str(b) => StringSkips(b, open, depth);
    case Arr(es) =>
      ElemsSkip(es, open, if open == '[' then depth + 1 else depth);
      BracketSkips(ElemsText(es), open, depth, '[');
    case Obj(ms) =>
      MembersSkip(ms, open, if open == '{' then depth + 1 else depth);
      BracketSkips(MembersText(ms), open, depth, '{');
  }

  lemma {:induction false} ElemsSkip(es: Elems, open: char, depth: int)
    requires ElemsWF(es) && IsOpen(open) && depth >= 1
    ensures Skips(ElemsText(es), open, depth, false)
    decreases es, 0
  {
    match es
    case NoElem(ws) => PlainSkips(ws, open, depth);
    case LastElem(pre, v, post) => PaddedSkips(pre, v, post, open, depth);
    case MoreElems(pre, v, post, rest) =>
      PaddedSkips(pre, v, post, open, depth);
      ElemsSkip(rest, open, depth);
      CommaSkips(pre + Text(v) + post, ElemsText(rest), open, depth);
  }

  lemma {:induction false} PaddedSkips(pre: string, v: Json, post: string, open: char, depth: int)
    requires IsWs(pre) && WF(v) && IsWs(post) && IsOpen(open) && depth >= 1
    ensures Skips(pre + Text(v) + post, open, depth, false)
    decreases v, 1
  {
    PlainSkips(pre, open, depth);
    PlainSkips(post, open, depth);
    ValueSkips(v, open, depth);
    SkipsConcat(pre, Text(v), open, depth, false);
    SkipsConcat(pre + Text(v), post, open, depth, false);
  }

  lemma CommaSkips(a: string, b: string, open: char, depth: int)
    requires IsOpen(open) && Skips(a, open, depth, false) && Skips(b, open, depth, false)
    ensures Skips(a + "," + b, open, depth, false)
  {
    PlainSkips(",", open, depth);
    SkipsConcat(a, ",", open, depth, false);
    SkipsConcat(a + ",", b, open, depth, false);
  }

  lemma {:induction false} MemberSkips(pre: string, key: string, mid: string, lead: string, v: Json, open: char,
                                       depth: int)
    requires IsWs(pre) && IsBody(key) && IsWs(mid) && IsWs(lead) && WF(v) && IsOpen(open) && depth >= 1
    ensures Skips(MemberText(pre, key, mid, lead, Text(v)), open, depth, false)
    decreases v, 1
  {
    var k := "\"" + key + "\"";
    PlainSkips(pre, open, depth);
    StringSkips(key, open, depth);
    SkipsConcat(pre, k, open, depth, false);
    PlainSkips(mid, open, depth);
    SkipsConcat(pre + k, mid, open, depth, false);
    PlainSkips(":", open, depth);
    SkipsConcat(pre + k + mid, ":", open, depth, false);
    PlainSkips(lead, open, depth);
    SkipsConcat(pre + k + mid + ":", lead, open, depth, false);
    ValueSkips(v, open, depth);
    SkipsConcat(pre + k + mid + ":" + lead, Text(v), open, depth, false);
  }

  lemma {:induction false} MembersSkip(ms: Members, open: char, depth: int)
    requires MembersWF(ms) && IsOpen(open) && depth >= 1
    ensures Skips(MembersText(ms), open, depth, false)
    decreases ms, 0
  {
    match ms
    case NoMember(ws) => PlainSkips(ws, open, depth);
    case LastMember(pre, key, mid, lead, v, post) =>
      MemberSkips(pre, key, mid, lead, v, open, depth);
      PlainSkips(post, open, depth);
      SkipsConcat(MemberText(pre, key, mid, lead, Text(v)), post, open, depth, false);
    case MoreMembers(pre, key, mid, lead, v, post, rest) =>
      MemberSkips(pre, key, mid, lead, v, open, depth);
      PlainSkips(post, open, depth);
      SkipsConcat(MemberText(pre, key, mid, lead, Text(v)), post, open, depth, false);
      MembersSkip(rest, open, depth);
      CommaSkips(MemberText(pre, key, mid, lead, Text(v)) + post, MembersText(rest), open, depth);
  }

  /** The scanner's law: on any object or array text followed by anything, it stops exactly at the end
      of that text, though it counts only one kind of bracket. */
  lemma ScanFindsContainer(v: Json, rest: string)
    requires WF(v) && (v.Arr? || v.Obj?)
    ensures Scan(Text(v) + rest, Text(v)[0], 0, false, false) == Some(|Text(v)|)
  {
    var open := Text(v)[0];
    var inner := if v.Arr? then ElemsText(v.elems) else MembersText(v.members);
    if v.Arr? { ElemsSkip(v.elems, open, 1); } else { MembersSkip(v.members, open, 1); }
    assert (Text(v) + rest)[1..] == inner + ([Close(open)] + rest);
    assert SkipsBefore(inner, [Close(open)] + rest, open, 1, false);
  }

  /** Whatever the scanner accepts ends at a closing bracket inside the input. */
  lemma {:induction false} ScanEndsAtClose(s: string, open: char, depth: int, inString: bool, escaped: bool)
    requires Scan(s, open, depth, inString, escaped).Some?
    ensures 1 <= Scan(s, open, depth, inString, escaped).value <= |s|
    ensures s[Scan(s, open, depth, inString, escaped).value - 1] == Close(open)
    decreases |s|
  {
    var c := s[0];
    if escaped { ScanEndsAtClose(s[1..], open, depth, inString, false); }
    else if c == '\\' && inString { ScanEndsAtClose(s[1..], open, depth, inString, true); }
    else if c == '"' { ScanEndsAtClose(s[1..], open, depth, !inString, false); }
    else if inString { ScanEndsAtClose(s[1..], open, depth, inString, false); }
    else if c == open { ScanEndsAtClose(s[1..], open, depth + 1, inString, false); }
    else if c == Close(open) {
      if depth - 1 != 0 { ScanEndsAtClose(s[1..], open, depth - 1, inString, false); }
    } else { ScanEndsAtClose(s[1..], open, depth, inString, false); }
  }

  // ---- Extraction ----

  /** An object or array text occupies s[lo..hi]. */
  ghost predicate ContainerAt(s: string, lo: nat, hi: nat) {
    lo < hi <= |s| && Container(s[lo..hi])
  }

  lemma ContainerScanned(s: string, lo: nat, hi: nat)
    requires ContainerAt(s, lo, hi)
    ensures IsOpen(s[lo]) && Scan(s[lo..], s[lo], 0, false, false) == Some(hi - lo)
  {
    var v :| IsContainer(s[lo..hi], v);
    ScanFindsContainer(v, s[hi..]);
    assert s[lo..] == Text(v) + s[hi..];
    assert s[lo] == s[lo..hi][0] == Text(v)[0];
  }

  /** At most one object or array text starts at a position. */
  lemma ContainerUnique(s: string, lo: nat, hi: nat, other: nat)
    requires ContainerAt(s, lo, hi) && ContainerAt(s, lo, other)
    ensures hi == other
  {
    ContainerScanned(s, lo, hi);
    ContainerScanned(s, lo, other);
  }

  /** A JSON text that starts with an opening and ends with a closing bracket is a bare object or array. */
  lemma BracketedIsContainer(c: string)
    requires JsonText(c) && c != "" && IsOpen(c[0]) && !IsSpace(c[|c| - 1])
    ensures Container(c)
  {
    var pre, v, post :| IsJsonText(c, pre, v, post);
    SpaceAtEnds(pre, Text(v), post);
    assert c == Text(v);
    if v.Number? { NumberPlain(v); }
    assert IsContainer(c, v);
  }

  lemma SpaceAtEnds(pre: string, t: string, post: string)
    requires IsWs(pre) && IsWs(post)
    ensures var c := pre + t + post; (pre != "" ==> IsSpace(c[0])) && (post != "" ==> IsSpace(c[|c| - 1]))
  {
  }

  lemma ContainerIsText(c: string)
    requires Container(c)
    ensures JsonText(c)
  {
    var v :| IsContainer(c, v);
    assert c == "" + Text(v) + "";
    assert IsJsonText(c, "", v, "");
  }

  datatype Span = Span(lo: nat, hi: nat)

  /** The reference definition, which knows nothing of brackets: take the object or array text at the first
      position where one starts, go on after it. */
  ghost function Leftmost(s: string, i: nat): seq<Span>
    decreases |s| - i
  {
    if i >= |s| then []
    else if exists hi: nat :: ContainerAt(s, i, hi) then
      var hi: nat :| ContainerAt(s, i, hi);
      [Span(i, hi)] + Leftmost(s, hi)
    else Leftmost(s, i + 1)
  }

  /** What the reference definition promises: the spans are object or array texts, disjoint and left to right. */
  lemma {:induction false} LeftmostOrdered(s: string, i: nat)
    ensures forall k | 0 <= k < |Leftmost(s, i)| ::
      i <= Leftmost(s, i)[k].lo && ContainerAt(s, Leftmost(s, i)[k].lo, Leftmost(s, i)[k].hi)
    ensures forall j, k | 0 <= j < k < |Leftmost(s, i)| :: Leftmost(s, i)[j].hi <= Leftmost(s, i)[k].lo
    decreases |s| - i
  {
    if i < |s| {
      if exists hi: nat :: ContainerAt(s, i, hi) {
        LeftmostOrdered(s, Leftmost(s, i)[0].hi);
      } else {
        LeftmostOrdered(s, i + 1);
      }
    }
  }

  /** Every position where an object or array text starts lies inside one of the spans. */
  lemma {:induction false} LeftmostCovers(s: string, i: nat, lo: nat, hi: nat)
    requires i <= lo && ContainerAt(s, lo, hi)
    ensures exists k | 0 <= k < |Leftmost(s, i)| :: Leftmost(s, i)[k].lo <= lo < Leftmost(s, i)[k].hi
    decreases |s| - i
  {
    var r := Leftmost(s, i);
    if exists end: nat :: ContainerAt(s, i, end) {
      var end := r[0].hi;
      var tail := Leftmost(s, end);
      assert r == [Span(i, end)] + tail;
      if lo < end {
        assert r[0].lo <= lo < r[0].hi;
      } else {
        LeftmostCovers(s, end, lo, hi);
        var k :| 0 <= k < |tail| && tail[k].lo <= lo < tail[k].hi;
        assert r[k + 1] == tail[k];
      }
    } else {
      LeftmostCovers(s, i + 1, lo, hi);
    }
  }

  /** What is wanted of the spans from position `i` on: they are object or array texts, from left to right without
      overlap, and no such text starts outside of them. */
  ghost predicate Wanted(s: string, i: nat, spans: seq<Span>) {
    && (forall k | 0 <= k < |spans| :: i <= spans[k].lo && ContainerAt(s, spans[k].lo, spans[k].hi))
    && (forall j, k | 0 <= j < k < |spans| :: spans[j].hi <= spans[k].lo)
    && (forall lo, hi | i <= lo && ContainerAt(s, lo, hi) :: Covered(spans, lo))
  }

  /** The texts are those at the spans, one for each in the same order. */
  predicate CutOut(s: string, spans: seq<Span>, texts: seq<string>) {
    && |texts| == |spans|
    && forall k | 0 <= k < |spans| ::
         spans[k].lo <= spans[k].hi <= |s| && texts[k] == s[spans[k].lo..spans[k].hi]
  }

  predicate Covered(spans: seq<Span>, lo: nat) {
    exists k | 0 <= k < |spans| :: spans[k].lo <= lo < spans[k].hi
  }

  lemma LeftmostWanted(s: string, i: nat)
    ensures Wanted(s, i, Leftmost(s, i))
  {
    hide Leftmost, ContainerAt;
    LeftmostOrdered(s, i);
    forall lo: nat, hi: nat | i <= lo && ContainerAt(s, lo, hi) ensures Covered(Leftmost(s, i), lo) {
      LeftmostCovers(s, i, lo, hi);
    }
  }

  /** That describes them completely. */
  lemma {:induction false} WantedIsLeftmost(s: string, i: nat, spans: seq<Span>)
    requires Wanted(s, i, spans)
    ensures spans == Leftmost(s, i)
    decreases |s| - i
  {
    hide Container, Wanted;
    if i >= |s| {
      NoneLeft(s, i, spans);
    } else if exists hi: nat :: ContainerAt(s, i, hi) {
      var hi := Leftmost(s, i)[0].hi;
      FirstWanted(s, i, spans, hi);
      WantedIsLeftmost(s, hi, spans[1..]);
      assert spans == [spans[0]] + spans[1..];
    } else {
      NoneHere(s, i, spans);
      WantedIsLeftmost(s, i + 1, spans);
    }
  }

  lemma NoneLeft(s: string, i: nat, spans: seq<Span>)
    requires Wanted(s, i, spans) && i >= |s|
    ensures spans == []
  {
    hide Container;
    assert spans != [] ==> ContainerAt(s, spans[0].lo, spans[0].hi);
  }

  lemma NoneHere(s: string, i: nat, spans: seq<Span>)
    requires Wanted(s, i, spans) && forall hi: nat :: !ContainerAt(s, i, hi)
    ensures Wanted(s, i + 1, spans)
  {
    hide ContainerAt;
  }

  lemma FirstWanted(s: string, i: nat, spans: seq<Span>, hi: nat)
    requires Wanted(s, i, spans) && ContainerAt(s, i, hi)
    ensures spans != [] && spans[0] == Span(i, hi) && Wanted(s, hi, spans[1..])
  {
    hide Container;
    assert Covered(spans, i);
    var k :| 0 <= k < |spans| && spans[k].lo <= i < spans[k].hi;
    assert ContainerAt(s, spans[0].lo, spans[0].hi);
    ContainerUnique(s, i, spans[k].hi, hi);
    RestCovered(s, i, spans);
  }

  lemma RestCovered(s: string, i: nat, spans: seq<Span>)
    requires Wanted(s, i, spans) && spans != []
    ensures forall lo: nat, end: nat | spans[0].hi <= lo && ContainerAt(s, lo, end) :: Covered(spans[1..], lo)
  {
    hide Container;
    var rest := spans[1..];
    forall lo: nat, end: nat | spans[0].hi <= lo && ContainerAt(s, lo, end) ensures Covered(rest, lo) {
      assert ContainerAt(s, spans[0].lo, spans[0].hi);
      assert Covered(spans, lo);
      var k :| 0 <= k < |spans| && spans[k].lo <= lo < spans[k].hi;
      assert rest[k - 1] == spans[k];
    }
  }

  lemma LeftmostEnds(s: string)
    ensures Leftmost(s, |s|) == []
  {
  }

  /** extractJSONCandidates. `isValid` is encoding/json's Valid, which accepts exactly the JSON texts. */
  method ExtractJSONCandidates(s: string, isValid: string -> bool)
    returns (candidates: seq<string>)
    requires forall t: string :: isValid(t) <==> JsonText(t)
    ensures exists spans :: Wanted(s, 0, spans) && CutOut(s, spans, candidates)
    ensures forall k | 0 <= k < |candidates| :: Container(candidates[k])
  {
    hide Leftmost, Scan, ContainerAt, JsonText, Container;
    candidates := [];
    ghost var done: seq<Span> := [];
    var i := 0;
    while i < |s|
      invariant i <= |s|
      invariant Leftmost(s, 0) == done + Leftmost(s, i)
      invariant CutOut(s, done, candidates)
      invariant forall k | 0 <= k < |candidates| :: Container(candidates[k])
      decreases |s| - i
    {
      if s[i] != '{' && s[i] != '[' {
        NoContainerHere(s, i);
        i := i + 1;
        continue;
      }
      var balanced := BalancedJSONAt(s, i);
      if balanced.None? {
        NoContainerHere(s, i);
        i := i + 1;
        continue;
      }
      var candidate := balanced.value;
      ghost var hi := i + |candidate|;
      BalancedHere(s, i, hi);
      if isValid(candidate) {
        BalancedContainer(s, i, hi);
        candidates := candidates + [candidate];
        done := done + [Span(i, hi)];
        i := i + |candidate| - 1;
      }
      i := i + 1;
    }
    LeftmostEnds(s);
    LeftmostWanted(s, 0);
    assert Leftmost(s, 0) == done;
    assert Wanted(s, 0, done) && CutOut(s, done, candidates);
  }

  /** extractJSON: the object or array text that starts first, if there is one. */
  method ExtractJSON(s: string, isValid: string -> bool) returns (text: Option<string>)
    requires forall t: string :: isValid(t) <==> JsonText(t)
    ensures text.Some? <==> exists lo: nat, hi: nat :: ContainerAt(s, lo, hi)
    ensures text.Some? ==> exists lo: nat, hi: nat ::
      && ContainerAt(s, lo, hi) && text.value == s[lo..hi]
      && forall other: nat, end: nat :: ContainerAt(s, other, end) ==> lo <= other
  {
    hide ContainerAt, JsonText, Container;
    var candidates := ExtractJSONCandidates(s, isValid);
    ghost var spans: seq<Span> :| Wanted(s, 0, spans) && CutOut(s, spans, candidates);
    if |candidates| == 0 { return None; }
    assert ContainerAt(s, spans[0].lo, spans[0].hi);
    return Some(candidates[0]);
  }

  /** Where the scanner balances s[i..hi], the reference definition takes it exactly if it is valid JSON. */
  lemma BalancedHere(s: string, i: nat, hi: nat)
    requires i <= hi <= |s| && i < |s| && IsOpen(s[i]) && Scan(s[i..], s[i], 0, false, false) == Some(hi - i)
    ensures i < hi
    ensures Leftmost(s, i) == if JsonText(s[i..hi]) then [Span(i, hi)] + Leftmost(s, hi) else Leftmost(s, i + 1)
  {
    ScanEndsAtClose(s[i..], s[i], 0, false, false);
    var c := s[i..hi];
    if JsonText(c) {
      BracketedIsContainer(c);
      assert ContainerAt(s, i, hi);
      ContainerUnique(s, i, Leftmost(s, i)[0].hi, hi);
    } else if h: nat :| ContainerAt(s, i, h) {
      ContainerScanned(s, i, h);
      ContainerIsText(s[i..h]);
    }
  }

  lemma BalancedContainer(s: string, i: nat, hi: nat)
    requires i < hi <= |s| && IsOpen(s[i]) && Scan(s[i..], s[i], 0, false, false) == Some(hi - i)
    requires JsonText(s[i..hi])
    ensures Container(s[i..hi])
  {
    ScanEndsAtClose(s[i..], s[i], 0, false, false);
    BracketedIsContainer(s[i..hi]);
  }

  lemma NoContainerHere(s: string, i: nat)
    requires i < |s| && (!IsOpen(s[i]) || Scan(s[i..], s[i], 0, false, false).None?)
    ensures !exists hi: nat :: ContainerAt(s, i, hi)
    ensures Leftmost(s, i) == Leftmost(s, i + 1)
  {
    if hi: nat :| ContainerAt(s, i, hi) { ContainerScanned(s, i, hi); }
  }
}

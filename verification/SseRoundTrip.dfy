/** What the Server-Sent Events reader guarantees: its lines are those of splitting the whole stream at once,
    and printed events are read back unchanged. */
module SseRoundTrip {
  import opened Sse

  // ---- Incremental lines against a whole-stream split ----

  /** Every CRLF and every CR replaced by LF. */
  function Normalised(s: string): string {
    if s == "" then ""
    else if s[0] == '\r' then
      if |s| > 1 && s[1] == '\n' then "\n" + Normalised(s[2..]) else "\n" + Normalised(s[1..])
    else [s[0]] + Normalised(s[1..])
  }

  function IndexLF(s: string): (n: nat)
    ensures n <= |s|
  {
    if s == "" || s[0] == '\n' then 0 else 1 + IndexLF(s[1..])
  }

  /** The pieces between LFs; nothing follows a final LF. */
  function SplitLF(s: string): seq<string>
    decreases |s|
  {
    if s == "" then []
    else
      var n := IndexLF(s);
      if n == |s| then [s] else [s[..n]] + SplitLF(s[n + 1..])
  }

  /** The lines that repeated readLine calls return, up to an oversized one. */
  function Lines(s: string): seq<string>
    decreases |s|
  {
    match NextLine(s)
    case Line(text, rest) => [text] + Lines(rest)
    case Last(text) => if text == "" then [] else [text]
    case TooLong(_) => []
  }

  lemma NormalisedChar(s: string)
    ensures s == "" ==> LineLen(s) == 0 && Normalised(s) == s
    ensures LineLen(s) > 0 ==> s != "" && LineLen(s) == 1 + LineLen(s[1..])
    ensures LineLen(s) > 0 ==> Normalised(s) == [s[0]] + Normalised(s[1..])
  {
  }

  lemma {:induction false} NormalisedFirst(s: string)
    ensures var n := LineLen(s);
      Normalised(s) == if n == |s| then s else s[..n] + "\n" + Normalised(AfterBreak(s, n))
  {
    hide Normalised, LineLen, AfterBreak;
    var n := LineLen(s);
    NormalisedChar(s);
    if n > 0 {
      var t := s[1..];
      NormalisedFirst(t);
      assert s == [s[0]] + t;
      if n < |s| {
        AfterBreakLater(s, n);
        assert s[..n] == [s[0]] + t[..n - 1];
        assert [s[0]] + (t[..n - 1] + "\n" + Normalised(AfterBreak(s, n)))
          == s[..n] + "\n" + Normalised(AfterBreak(s, n));
      }
    } else if s != "" {
      NormalisedBreak(s);
      assert s[..0] + "\n" + Normalised(AfterBreak(s, 0)) == "\n" + Normalised(AfterBreak(s, 0));
    }
  }

  lemma AfterBreakLater(s: string, n: nat)
    requires 0 < n < |s|
    ensures AfterBreak(s, n) == AfterBreak(s[1..], n - 1)
  {
    assert s[1..][n..] == s[n + 1..];
  }

  lemma NormalisedBreak(s: string)
    requires s != "" && IsBreak(s[0])
    ensures Normalised(s) == "\n" + Normalised(AfterBreak(s, 0))
  {
    if s[0] == '\r' && |s| > 1 && s[1] == '\n' {
      assert s[1..][1..] == s[2..];
    }
  }

  lemma {:induction false} IndexOfFirst(a: string, b: string)
    requires NoBreak(a)
    ensures IndexLF(a + b) == |a| + IndexLF(b)
    ensures b == "" || b[0] == '\n' ==> IndexLF(a + b) == |a|
  {
    if a == "" {
      assert a + b == b;
    } else {
      assert (a + b)[1..] == a[1..] + b;
      IndexOfFirst(a[1..], b);
    }
  }

  lemma SplitAt(a: string, b: string)
    requires NoBreak(a)
    ensures SplitLF(a + "\n" + b) == [a] + SplitLF(b)
    ensures SplitLF(a) == if a == "" then [] else [a]
  {
    var t := a + "\n" + b;
    assert t == a + ("\n" + b) && a == a + "";
    IndexOfFirst(a, "\n" + b);
    IndexOfFirst(a, "");
    assert t[..|a|] == a && t[|a| + 1..] == b;
  }

  /** The split's first piece is the first line. */
  lemma SplitFirst(s: string)
    ensures var n := LineLen(s);
      SplitLF(Normalised(s)) ==
        if s == "" then [] else if n == |s| then [s] else [s[..n]] + SplitLF(Normalised(AfterBreak(s, n)))
  {
    hide Normalised, AfterBreak, LineLen, SplitLF;
    var n := LineLen(s);
    NormalisedFirst(s);
    if n == |s| {
      assert s[..n] == s;
      SplitAt(s, "");
    } else {
      SplitAt(s[..n], Normalised(AfterBreak(s, n)));
    }
  }

  predicate AllWithin(lines: seq<string>, bound: nat) {
    forall k | 0 <= k < |lines| :: |lines[k]| <= bound
  }

  /** The deferred-LF reader, which never looks ahead, splits exactly as a whole-stream split does. */
  lemma {:induction false} ReaderSplits(s: string)
    requires AllWithin(SplitLF(Normalised(s)), MAX)
    ensures Lines(s) == SplitLF(Normalised(s))
    decreases |s|
  {
    hide Normalised, SplitLF, AfterBreak, LineLen;
    var n := LineLen(s);
    SplitFirst(s);
    if s == "" {
    } else if n == |s| {
      assert |SplitLF(Normalised(s))[0]| == n;
    } else {
      var tail := SplitLF(Normalised(AfterBreak(s, n)));
      assert |SplitLF(Normalised(s))[0]| == n;
      assert forall k | 0 <= k < |tail| :: tail[k] == SplitLF(Normalised(s))[k + 1];
      assert NextLine(s) == Line(s[..n], AfterBreak(s, n));
      ReaderSplits(AfterBreak(s, n));
    }
  }

  // ---- Printing events ----

  datatype Terminator = LF | CR | CRLF

  function TermText(t: Terminator): string {
    match t case LF => "\n" case CR => "\r" case CRLF => "\r\n"
  }

  datatype Printed = Printed(text: string, term: Terminator)

  /** Printed lines, and what follows the last terminator. */
  function Render(lines: seq<Printed>, tail: string): string {
    if lines == [] then tail else lines[0].text + TermText(lines[0].term) + Render(lines[1..], tail)
  }

  /** No line ended by a CR is followed directly by an empty one ended by a LF: the two would read as one CRLF. */
  predicate Compatible(lines: seq<Printed>) {
    forall i | 0 <= i < |lines| - 1 :: lines[i].term == CR ==> lines[i + 1] != Printed("", LF)
  }

  predicate Printable(lines: seq<Printed>) {
    Compatible(lines) && forall i | 0 <= i < |lines| :: NoBreak(lines[i].text)
  }

  /** The reader recovers the first printed line, whatever its terminator. */
  lemma RenderFirst(lines: seq<Printed>, tail: string)
    requires lines != [] && Printable(lines) && NoBreak(tail) && |lines[0].text| <= MAX
    ensures NextLine(Render(lines, tail)) == Line(lines[0].text, Render(lines[1..], tail))
  {
    hide Render, LineLen, NoBreak, IsBreak;
    var line, rest := lines[0], Render(lines[1..], tail);
    var s := line.text + TermText(line.term) + rest;
    RenderUnfolds(lines, tail);
    FirstBreak(line, rest);
    LineLenIs(s, |line.text|);
    if line.term == CR { StartsWithLF(lines[1..], tail); }
    AfterTerminator(line, rest);
  }

  lemma RenderUnfolds(lines: seq<Printed>, tail: string)
    requires lines != []
    ensures Render(lines, tail) == lines[0].text + TermText(lines[0].term) + Render(lines[1..], tail)
  {
  }

  lemma FirstBreak(line: Printed, rest: string)
    requires NoBreak(line.text)
    ensures var s, n := line.text + TermText(line.term) + rest, |line.text|;
      n < |s| && s[..n] == line.text && NoBreak(s[..n]) && IsBreak(s[n])
  {
    var s, n := line.text + TermText(line.term) + rest, |line.text|;
    assert s[..n] == line.text;
  }

  lemma AfterTerminator(line: Printed, rest: string)
    requires line.term == CR ==> DropLF(rest) == rest
    ensures AfterBreak(line.text + TermText(line.term) + rest, |line.text|) == rest
  {
    var s, n := line.text + TermText(line.term) + rest, |line.text|;
    match line.term
    case LF => assert s[n + 1..] == rest;
    case CR => assert s[n + 1..] == rest;
    case CRLF => assert s[n + 1..] == "\n" + rest;
  }

  lemma StartsWithLF(lines: seq<Printed>, tail: string)
    requires (lines != [] ==> NoBreak(lines[0].text) && lines[0] != Printed("", LF)) && NoBreak(tail)
    ensures DropLF(Render(lines, tail)) == Render(lines, tail)
  {
    if lines != [] && lines[0].text == "" {
      assert Render(lines, tail) == TermText(lines[0].term) + Render(lines[1..], tail);
    }
  }

  /** The unterminated rest of the stream is its last line. */
  lemma TailIsLast(tail: string)
    requires NoBreak(tail) && |tail| <= MAX
    ensures NextLine(tail) == Last(tail)
  {
  }

  /** How a field is spelled: with a space after the colon, without one, or without colon and value. */
  datatype Form = Spaced | Tight | Bare

  /** One line of an event: a comment, a field the reader knows, or one it ignores ("retry" and unknown ones). */
  datatype Item =
    | Comment(text: string)
    | Data(value: string, form: Form)
    | Name(value: string, form: Form)
    | Id(value: string, form: Form)
    | Other(field: string, value: string, form: Form)

  function FieldText(field: string, value: string, form: Form): string {
    match form case Spaced => field + ": " + value case Tight => field + ":" + value case Bare => field
  }

  function ItemText(item: Item): string {
    match item
    case Comment(t) => ":" + t
    case Data(v, form) => FieldText("data", v, form)
    case Name(v, form) => FieldText("event", v, form)
    case Id(v, form) => FieldText("id", v, form)
    case Other(f, v, form) => FieldText(f, v, form)
  }

  /** Only a value that does not start with a space can follow a colon directly, and only an empty one can be left
      out. */
  predicate FormOk(value: string, form: Form) {
    match form case Spaced => true case Tight => value == "" || value[0] != ' ' case Bare => value == ""
  }

  predicate ItemOk(item: Item) {
    && NoBreak(ItemText(item))
    && (!item.Comment? ==> FormOk(item.value, item.form))
    && (item.Other? ==> item.field != "" && ':' !in item.field && item.field !in ["data", "event", "id"])
  }

  lemma {:induction false} ColonAfter(field: string, rest: string)
    requires ':' !in field
    ensures Colon(field + ":" + rest) == |field|
  {
    var s := field + ":" + rest;
    if field != "" {
      assert s[0] == field[0] && s[1..] == field[1..] + ":" + rest;
      ColonAfter(field[1..], rest);
    }
  }

  lemma {:induction false} NoColon(field: string)
    requires ':' !in field
    ensures Colon(field) == |field|
  {
    if field != "" { NoColon(field[1..]); }
  }

  lemma {:induction false} FieldLine(field: string, v: string, form: Form)
    requires ':' !in field && field != "" && FormOk(v, form)
    ensures var line := FieldText(field, v, form);
      line[..Colon(line)] == field && Value(line) == v && line != "" && line[0] != ':'
  {
    var line := FieldText(field, v, form);
    match form
    case Spaced =>
      assert line == field + ":" + (" " + v);
      ColonAfter(field, " " + v);
    case Tight => ColonAfter(field, v);
    case Bare => NoColon(field);
    assert line[0] == field[0];
  }

  function ApplyItem(p: Partial, item: Item): Partial {
    match item
    case Comment(_) => p
    case Data(v, _) => p.(dataLines := p.dataLines + [v], hasData := true)
    case Name(v, _) => p.(event := v)
    case Id(v, _) => p.(id := v)
    case Other(_, _, _) => p
  }

  lemma ItemApplied(p: Partial, item: Item)
    requires ItemOk(item)
    ensures ItemText(item) != "" && Apply(p, ItemText(item)) == ApplyItem(p, item)
  {
    match item
    case Comment(_) =>
    case Data(v, form) => FieldLine("data", v, form);
    case Name(v, form) => FieldLine("event", v, form);
    case Id(v, form) => FieldLine("id", v, form);
    case Other(f, v, form) => FieldLine(f, v, form);
  }

  /** Lines up to a blank one: an event, or, without data, a heartbeat or a name and ID for the next event. */
  datatype Record = Record(items: seq<Item>, terms: seq<Terminator>, blank: Terminator)

  /** What follows the last blank line: whole lines, then a line cut off anywhere, perhaps at its start. */
  datatype Cut = Cut(items: seq<Item>, terms: seq<Terminator>, tail: string)

  function ItemLines(items: seq<Item>, terms: seq<Terminator>): seq<Printed>
    requires |items| == |terms|
  {
    seq(|items|, i requires 0 <= i < |items| => Printed(ItemText(items[i]), terms[i]))
  }

  /** The lines of a record: its items, each with its terminator, then a blank one. */
  function RecordLines(r: Record): seq<Printed>
    requires |r.items| == |r.terms|
  {
    ItemLines(r.items, r.terms) + [Printed("", r.blank)]
  }

  function Size(items: seq<Item>): nat {
    if items == [] then 0 else |ItemText(items[0])| + Size(items[1..])
  }

  function DataOf(items: seq<Item>): seq<string> {
    if items == [] then []
    else (if items[0].Data? then [items[0].value] else []) + DataOf(items[1..])
  }

  /** The last event name of `items`, or `before`. */
  function NameOf(items: seq<Item>, before: string): string {
    if items == [] then before else NameOf(items[1..], if items[0].Name? then items[0].value else before)
  }

  function IdOf(items: seq<Item>, before: string): string {
    if items == [] then before else IdOf(items[1..], if items[0].Id? then items[0].value else before)
  }

  predicate RecordOk(r: Record) {
    |r.items| == |r.terms| && (forall i | 0 <= i < |r.items| :: ItemOk(r.items[i])) && Size(r.items) <= MAX
  }

  predicate CutOk(c: Cut) {
    && |c.items| == |c.terms| && (forall i | 0 <= i < |c.items| :: ItemOk(c.items[i]))
    && NoBreak(c.tail) && Size(c.items) + |c.tail| <= MAX
  }

  predicate AllOk(rs: seq<Record>) {
    forall k | 0 <= k < |rs| :: RecordOk(rs[k])
  }

  function AllLines(rs: seq<Record>, c: Cut): seq<Printed>
    requires AllOk(rs) && CutOk(c)
  {
    if rs == [] then ItemLines(c.items, c.terms)
    else
      assert RecordOk(rs[0]) && forall k | 0 <= k < |rs| - 1 :: rs[1..][k] == rs[k + 1];
      RecordLines(rs[0]) + AllLines(rs[1..], c)
  }

  // ---- What the reader makes of it ----

  /** The event of items that follow a name and an ID still pending. */
  function EventOf(items: seq<Item>, name: string, id: string): Event {
    Event(NameOf(items, name), Join(DataOf(items)), IdOf(items, id), 0)
  }

  /** The state between records: a name and an ID that a record without data left behind. */
  function Pending(name: string, id: string): Partial {
    Partial(name, id, [], false, 0)
  }

  /** The event under construction once all whole lines of a cut record are read. */
  function Unfinished(c: Cut, name: string, id: string): Partial {
    Partial(NameOf(c.items, name), IdOf(c.items, id), DataOf(c.items), DataOf(c.items) != [], 0)
  }

  /** At the end of the stream a buffered event is still delivered; at an error it is not. */
  function CutEvents(c: Cut, name: string, id: string, end: Err): seq<Event> {
    var p := Unfinished(c, name, id);
    var q := if c.tail == "" then p else Apply(p, c.tail);
    if end == Eof && q.hasData then [Finished(q)] else []
  }

  /** A record with data is an event; one without leaves its name and ID to the next. */
  function Events(rs: seq<Record>, c: Cut, name: string, id: string, end: Err): seq<Event> {
    if rs == [] then CutEvents(c, name, id, end)
    else
      var items := rs[0].items;
      if DataOf(items) == [] then Events(rs[1..], c, NameOf(items, name), IdOf(items, id), end)
      else [EventOf(items, name, id)] + Events(rs[1..], c, "", "", end)
  }

  lemma PrintableTail(lines: seq<Printed>, k: nat)
    requires Printable(lines) && k <= |lines|
    ensures Printable(lines[k..])
  {
    assert forall i | 0 <= i < |lines| - k :: lines[k..][i] == lines[k + i];
  }

  lemma RecordLinesNext(r: Record, rest: seq<Printed>)
    requires |r.items| == |r.terms|
    ensures var lines := RecordLines(r) + rest;
      lines != [] &&
      if r.items == [] then lines[0] == Printed("", r.blank) && lines[1..] == rest
      else lines[0] == Printed(ItemText(r.items[0]), r.terms[0])
           && lines[1..] == RecordLines(Record(r.items[1..], r.terms[1..], r.blank)) + rest
  {
  }

  /** The item that a line spells is applied to the event, and the line's size counted. */
  lemma ItemJudged(p: Partial, item: Item, rest: string, end: Err)
    requires ItemOk(item) && p.size + |ItemText(item)| <= MAX
    ensures Judge(Line(ItemText(item), rest), p, end) == More(ApplyItem(p.(size := p.size + |ItemText(item)|), item))
  {
    hide ItemText, ItemOk, Apply, ApplyItem, Join;
    ItemApplied(p.(size := p.size + |ItemText(item)|), item);
  }

  /** Data is buffered exactly if there is some. */
  predicate Buffered(p: Partial) {
    p.hasData <==> p.dataLines != []
  }

  /** One item read, from the middle: `p` is what earlier ones have built. */
  lemma ReadsItem(item: Item, lines: seq<Printed>, tail: string, p: Partial, end: Err)
    requires lines != [] && lines[0].text == ItemText(item) && Printable(lines) && NoBreak(tail)
    requires ItemOk(item) && p.size + |ItemText(item)| <= MAX
    ensures ReadFrom(Render(lines, tail), p, end)
      == ReadFrom(Render(lines[1..], tail), ApplyItem(p.(size := p.size + |ItemText(item)|), item), end)
  {
    hide Render, Printable, ItemText, ItemOk, NextLine, Apply, Judge;
    ReadFromUnfolds(Render(lines, tail), p, end);
    RenderFirst(lines, tail);
    ItemJudged(p, item, Render(lines[1..], tail), end);
  }

  lemma {:induction false} NothingApplied(p: Partial)
    ensures p.dataLines + DataOf([]) == p.dataLines
    ensures NameOf([], p.event) == p.event && IdOf([], p.id) == p.id && Size([]) == 0
  {
  }

  lemma {:induction false} FirstApplied(items: seq<Item>, p: Partial)
    requires items != [] && Buffered(p)
    ensures var q := ApplyItem(p.(size := p.size + |ItemText(items[0])|), items[0]);
      && Buffered(q) && q.size + Size(items[1..]) == p.size + Size(items)
      && NameOf(items[1..], q.event) == NameOf(items, p.event) && IdOf(items[1..], q.id) == IdOf(items, p.id)
  {
    hide ItemText;
  }

  lemma {:induction false} DataApplied(items: seq<Item>, p: Partial, size: nat)
    requires items != []
    ensures ApplyItem(p.(size := size), items[0]).dataLines + DataOf(items[1..]) == p.dataLines + DataOf(items)
  {
    var data, rest := p.dataLines, DataOf(items[1..]);
    var d := if items[0].Data? then [items[0].value] else [];
    assert data + (d + rest) == (data + d) + rest;
    assert data + [] == data;
  }

  /** The blank line at the end of a record. */
  lemma {:induction false} ReadsBlank(lines: seq<Printed>, tail: string, p: Partial, end: Err)
    requires lines != [] && lines[0].text == "" && Printable(lines) && NoBreak(tail) && p.size <= MAX
    ensures ReadFrom(Render(lines, tail), p, end) ==
      if p.hasData then (Got(Finished(p)), Render(lines[1..], tail))
      else ReadFrom(Render(lines[1..], tail), p.(size := 0), end)
  {
    hide ReadFrom, Render, NextLine, Join;
    ReadFromUnfolds(Render(lines, tail), p, end);
    RenderFirst(lines, tail);
  }

  /** Reading one record: an event if there is data, else the next record with the name and ID so far. */
  lemma {:induction false} ReadsRecord(r: Record, rest: seq<Printed>, tail: string, p: Partial, end: Err)
    requires |r.items| == |r.terms| && Printable(RecordLines(r) + rest) && NoBreak(tail)
    requires (forall i | 0 <= i < |r.items| :: ItemOk(r.items[i])) && p.size + Size(r.items) <= MAX && Buffered(p)
    ensures var data := p.dataLines + DataOf(r.items);
      ReadFrom(Render(RecordLines(r) + rest, tail), p, end) ==
        if data != [] then (Got(Event(NameOf(r.items, p.event), Join(data), IdOf(r.items, p.id), 0)),
                            Render(rest, tail))
        else ReadFrom(Render(rest, tail), Pending(NameOf(r.items, p.event), IdOf(r.items, p.id)), end)
    decreases |r.items|
  {
    hide ReadFrom, Render, RecordLines, Printable, ItemText, ItemOk, Join, NextLine, Apply;
    hide ApplyItem, DataOf, NameOf, IdOf;
    var lines := RecordLines(r) + rest;
    RecordLinesNext(r, rest);
    if r.items == [] {
      ReadsBlank(lines, tail, p, end);
      NothingApplied(p);
    } else {
      var item := r.items[0];
      var next := Record(r.items[1..], r.terms[1..], r.blank);
      ReadsItem(item, lines, tail, p, end);
      PrintableTail(lines, 1);
      FirstApplied(r.items, p);
      DataApplied(r.items, p, p.size + |ItemText(item)|);
      ReadsRecord(next, rest, tail, ApplyItem(p.(size := p.size + |ItemText(item)|), item), end);
    }
  }

  // ---- What is too large ----

  /** Lines of one event that together pass the bound, though no line does: reading stops after the one with which they
      do, and the event is lost. */
  lemma {:induction false} ReadsOversized(items: seq<Item>, terms: seq<Terminator>, rest: seq<Printed>, tail: string,
                                          p: Partial, end: Err)
    requires |items| == |terms| > 0 && Printable(ItemLines(items, terms) + rest) && NoBreak(tail)
    requires forall i | 0 <= i < |items| :: ItemOk(items[i]) && |ItemText(items[i])| <= MAX
    requires p.size + Size(items[..|items| - 1]) <= MAX < p.size + Size(items)
    ensures ReadFrom(Render(ItemLines(items, terms) + rest, tail), p, end)
      == (Failed(EventTooLong), Render(rest, tail))
    decreases |items|
  {
    hide ReadFrom, Render, Printable, ItemText, ItemOk, NextLine, Apply;
    var lines := ItemLines(items, terms) + rest;
    assert lines[0].text == ItemText(items[0]) && lines[1..] == ItemLines(items[1..], terms[1..]) + rest;
    if |items| == 1 {
      assert items[1..] == [] && lines[1..] == rest;
      ReadFromUnfolds(Render(lines, tail), p, end);
      RenderFirst(lines, tail);
    } else {
      assert items[..|items| - 1][1..] == items[1..][..|items| - 2];
      ReadsItem(items[0], lines, tail, p, end);
      PrintableTail(lines, 1);
      var q := ApplyItem(p.(size := p.size + |ItemText(items[0])|), items[0]);
      ReadsOversized(items[1..], terms[1..], rest, tail, q, end);
    }
  }

  /** A line that passes the bound by itself is lost as far as it was read, and so is the event. */
  lemma {:induction false} ReadsOverlong(line: string, rest: string, p: Partial, end: Err)
    requires NoBreak(line) && |line| > MAX
    ensures ReadFrom(line + rest, p, end) == (Failed(LineTooLong), line[MAX + 1..] + rest)
  {
    hide LineLen;
    var s := line + rest;
    assert s[..MAX + 1] == line[..MAX + 1] && s[MAX + 1..] == line[MAX + 1..] + rest;
    LineLenIs(s, MAX + 1);
  }

  // ---- Where the stream ends ----

  /** The event under construction after whole lines. */
  function After(p: Partial, items: seq<Item>): Partial
    decreases |items|
  {
    if items == [] then p else After(ApplyItem(p.(size := p.size + |ItemText(items[0])|), items[0]), items[1..])
  }

  lemma {:induction false} AfterIs(p: Partial, items: seq<Item>)
    requires Buffered(p)
    ensures After(p, items) == Partial(NameOf(items, p.event), IdOf(items, p.id), p.dataLines + DataOf(items),
                                       p.dataLines + DataOf(items) != [], p.size + Size(items))
    decreases |items|
  {
    hide ItemText;
    if items == [] {
      assert p.dataLines + DataOf(items) == p.dataLines;
    } else {
      var item, rest := items[0], items[1..];
      var q := ApplyItem(p.(size := p.size + |ItemText(item)|), item);
      var d := if item.Data? then [item.value] else [];
      assert q.dataLines == p.dataLines + d;
      AfterIs(q, rest);
      assert DataOf(items) == d + DataOf(rest);
      assert p.dataLines + (d + DataOf(rest)) == q.dataLines + DataOf(rest);
    }
  }

  /** What the end of the stream makes of the unterminated line and of what is buffered. */
  function AtEnd(p: Partial, tail: string, end: Err): Outcome {
    var q := p.(size := p.size + |tail|);
    var f := if tail == "" then q else Apply(q, tail);
    if end == Eof && f.hasData then Got(Finished(f)) else Failed(end)
  }

  /** Reading what is left when the stream ends inside a record. */
  lemma {:induction false} ReadsCut(c: Cut, p: Partial, end: Err)
    requires |c.items| == |c.terms| && Printable(ItemLines(c.items, c.terms)) && NoBreak(c.tail)
    requires (forall i | 0 <= i < |c.items| :: ItemOk(c.items[i])) && p.size + Size(c.items) + |c.tail| <= MAX
    ensures ReadFrom(Render(ItemLines(c.items, c.terms), c.tail), p, end) == (AtEnd(After(p, c.items), c.tail, end), "")
    decreases |c.items|
  {
    hide ReadFrom, Render, Printable, ItemText, ItemOk, NextLine, ItemLines, Judge, AtEnd, Apply;
    var lines := ItemLines(c.items, c.terms);
    ItemLinesNext(c.items, c.terms);
    if c.items == [] {
      ReadsTail(c.tail, p, end);
    } else {
      var item := c.items[0];
      ReadsItem(item, lines, c.tail, p, end);
      PrintableTail(lines, 1);
      ReadsCut(Cut(c.items[1..], c.terms[1..], c.tail), ApplyItem(p.(size := p.size + |ItemText(item)|), item), end);
    }
  }

  lemma ReadsTail(tail: string, p: Partial, end: Err)
    requires NoBreak(tail) && p.size + |tail| <= MAX
    ensures ReadFrom(Render([], tail), p, end) == (AtEnd(p, tail, end), "")
  {
    hide Apply, NextLine;
    ReadFromUnfolds(tail, p, end);
    TailIsLast(tail);
  }

  lemma ItemLinesNext(items: seq<Item>, terms: seq<Terminator>)
    requires |items| == |terms|
    ensures var lines := ItemLines(items, terms);
      if items == [] then lines == []
      else
        && lines != [] && lines[0] == Printed(ItemText(items[0]), terms[0])
        && lines[1..] == ItemLines(items[1..], terms[1..])
  {
  }

  /** The size counted so far plays no part in an event. */
  lemma SizeUnused(p: Partial, n: nat, line: string)
    ensures Apply(p.(size := n), line) == Apply(p, line).(size := n)
    ensures Finished(p.(size := n)) == Finished(p)
  {
  }

  /** All events from a state between records on. */
  function ReadAllFrom(s: string, p: Partial, end: Err): (seq<Event>, Err) {
    var r := ReadFrom(s, p, end);
    match r.0
    case Failed(err) => ([], err)
    case Got(e) => var more := ReadAll(r.1, end); ([e] + more.0, more.1)
  }

  lemma {:induction false} RoundTripFrom(rs: seq<Record>, c: Cut, name: string, id: string, end: Err)
    requires AllOk(rs) && CutOk(c) && Printable(AllLines(rs, c)) && (end == Eof || end == IoError)
    ensures ReadAllFrom(Render(AllLines(rs, c), c.tail), Pending(name, id), end) == (Events(rs, c, name, id, end), end)
    decreases |rs|
  {
    hide Render, Printable, RecordOk, CutOk, Apply, NextLine, Judge, RecordLines, ItemLines;
    if rs == [] {
      CutRoundTrip(c, name, id, end);
    } else {
      assert forall k | 0 <= k < |rs| - 1 :: rs[1..][k] == rs[k + 1];
      var r, rest := rs[0], AllLines(rs[1..], c);
      RecordShaped(r);
      RecordRead(r, rest, c, name, id, end);
      assert (RecordLines(r) + rest)[|RecordLines(r)|..] == rest;
      PrintableTail(RecordLines(r) + rest, |RecordLines(r)|);
      if DataOf(r.items) == [] {
        RoundTripFrom(rs[1..], c, NameOf(r.items, name), IdOf(r.items, id), end);
      } else {
        RoundTripFrom(rs[1..], c, "", "", end);
      }
    }
  }

  lemma RecordShaped(r: Record)
    requires RecordOk(r)
    ensures |r.items| == |r.terms|
  {
  }

  lemma RecordRead(r: Record, rest: seq<Printed>, c: Cut, name: string, id: string, end: Err)
    requires RecordOk(r) && CutOk(c) && Printable(RecordLines(r) + rest)
    ensures ReadFrom(Render(RecordLines(r) + rest, c.tail), Pending(name, id), end) ==
      if DataOf(r.items) != [] then (Got(EventOf(r.items, name, id)), Render(rest, c.tail))
      else ReadFrom(Render(rest, c.tail), Pending(NameOf(r.items, name), IdOf(r.items, id)), end)
  {
    ReadsRecord(r, rest, c.tail, Pending(name, id), end);
    assert [] + DataOf(r.items) == DataOf(r.items);
  }

  lemma CutRoundTrip(c: Cut, name: string, id: string, end: Err)
    requires CutOk(c) && Printable(ItemLines(c.items, c.terms)) && (end == Eof || end == IoError)
    ensures ReadAllFrom(Render(ItemLines(c.items, c.terms), c.tail), Pending(name, id), end)
      == (CutEvents(c, name, id, end), end)
  {
    hide Render, ReadFrom, Printable, ItemOk, ItemLines, AtEnd, After, ReadAll;
    ReadsCut(c, Pending(name, id), end);
    AtEndIs(c, name, id, end);
    NothingLeft(end);
    var o := AtEnd(After(Pending(name, id), c.items), c.tail, end);
    if o.Got? { assert [o.event] + [] == [o.event]; }
  }

  lemma AtEndIs(c: Cut, name: string, id: string, end: Err)
    ensures var o := AtEnd(After(Pending(name, id), c.items), c.tail, end);
      CutEvents(c, name, id, end) == (if o.Got? then [o.event] else []) && (o.Failed? ==> o.err == end)
  {
    hide Apply;
    var p, n := Unfinished(c, name, id), Size(c.items) + |c.tail|;
    AfterIs(Pending(name, id), c.items);
    assert [] + DataOf(c.items) == DataOf(c.items);
    assert After(Pending(name, id), c.items) == p.(size := Size(c.items));
    SizeUnused(p, n, c.tail);
    SizeUnused(Apply(p, c.tail), n, "");
  }

  lemma NothingLeft(end: Err)
    ensures ReadAll("", end) == ([], end)
  {
    ReadFromUnfolds("", EMPTY, end);
  }

  /** Printing and reading back: every record with data gives its event, in order, and nothing else is read, for any
      comments and ignored fields and any choice of terminators that keeps the lines apart. A record without data,
      such as a heartbeat, gives no event but leaves its name and ID to the next one; and of a record that the end of
      the stream cuts off, what has arrived is delivered if it has data. */
  lemma RoundTrip(rs: seq<Record>, c: Cut, end: Err)
    requires AllOk(rs) && CutOk(c) && Printable(AllLines(rs, c)) && (end == Eof || end == IoError)
    ensures ReadAll(Render(AllLines(rs, c), c.tail), end) == (Events(rs, c, "", "", end), end)
  {
    hide Render, Printable, CutOk, ReadFrom, Events;
    RoundTripFrom(rs, c, "", "", end);
  }

  // ---- The plain printer ----

  /** An event as a printer has it: its data may span several lines. */
  datatype Source = Source(name: string, id: string, data: seq<string>)

  function DataItems(data: seq<string>): seq<Item> {
    seq(|data|, i requires 0 <= i < |data| => Data(data[i], Spaced))
  }

  function Print(e: Source, terms: seq<Terminator>, blank: Terminator): Record {
    Record([Name(e.name, Spaced), Id(e.id, Spaced)] + DataItems(e.data), terms, blank)
  }

  lemma {:induction false} DataItemsRead(data: seq<string>, name: string, id: string)
    ensures DataOf(DataItems(data)) == data && NameOf(DataItems(data), name) == name && IdOf(DataItems(data), id) == id
  {
    if data != [] {
      assert DataItems(data)[1..] == DataItems(data[1..]);
      DataItemsRead(data[1..], name, id);
      assert data == [data[0]] + data[1..];
    }
  }

  /** A printed event stands for itself. */
  lemma PrintedEvent(e: Source, terms: seq<Terminator>, blank: Terminator)
    ensures EventOf(Print(e, terms, blank).items, "", "") == Event(e.name, Join(e.data), e.id, 0)
    ensures DataOf(Print(e, terms, blank).items) == e.data
  {
    var items := Print(e, terms, blank).items;
    assert items[0] == Name(e.name, Spaced) && items[1..][0] == Id(e.id, Spaced);
    assert items[1..][1..] == DataItems(e.data);
    DataItemsRead(e.data, e.name, e.id);
    assert DataOf(items[1..]) == [] + DataOf(DataItems(e.data));
    assert DataOf(items) == [] + DataOf(items[1..]) == e.data;
    assert NameOf(items, "") == NameOf(items[1..], e.name) == NameOf(items[1..][1..], e.name);
    assert IdOf(items, "") == IdOf(items[1..], "") == IdOf(items[1..][1..], e.id) == e.id;
    assert NameOf(items, "") == e.name;
  }

  /** The pieces of `s` between LFs, empty ones included. */
  function Pieces(s: string): seq<string>
    decreases |s|
  {
    var n := IndexLF(s);
    if n == |s| then [s] else [s[..n]] + Pieces(s[n + 1..])
  }

  /** The lines of the data can be told from the data of the event. */
  lemma {:induction false} DataSplits(lines: seq<string>)
    requires lines != [] && forall k | 0 <= k < |lines| :: NoBreak(lines[k])
    ensures Pieces(Join(lines)) == lines
  {
    if |lines| == 1 {
      assert lines[0] == lines[0] + "";
      IndexOfFirst(lines[0], "");
    } else {
      var rest := Join(lines[1..]);
      var s := lines[0] + "\n" + rest;
      assert s == lines[0] + ("\n" + rest);
      IndexOfFirst(lines[0], "\n" + rest);
      assert s[..|lines[0]|] == lines[0] && s[|lines[0]| + 1..] == rest;
      DataSplits(lines[1..]);
      assert lines == [lines[0]] + lines[1..];
    }
  }

  function Sent(es: seq<Source>): seq<Event> {
    seq(|es|, i requires 0 <= i < |es| => Event(es[i].name, Join(es[i].data), es[i].id, 0))
  }

  /** Each record is the print of one event with data. */
  predicate Prints(es: seq<Source>, rs: seq<Record>) {
    && |rs| == |es|
    && forall k | 0 <= k < |es| :: es[k].data != [] && rs[k] == Print(es[k], rs[k].terms, rs[k].blank)
  }

  const NOTHING := Cut([], [], "")

  /** Any list of events with data, printed and read back, is the same list. */
  lemma PrintedEventsRead(es: seq<Source>, rs: seq<Record>, end: Err)
    requires Prints(es, rs) && AllOk(rs) && Printable(AllLines(rs, NOTHING)) && (end == Eof || end == IoError)
    ensures ReadAll(Render(AllLines(rs, NOTHING), ""), end) == (Sent(es), end)
  {
    hide Render, Printable, ReadAll;
    RoundTrip(rs, NOTHING, end);
    PrintedEvents(es, rs, end);
  }

  lemma {:induction false} PrintedEvents(es: seq<Source>, rs: seq<Record>, end: Err)
    requires Prints(es, rs)
    ensures Events(rs, NOTHING, "", "", end) == Sent(es)
  {
    if es != [] {
      PrintedEvent(es[0], rs[0].terms, rs[0].blank);
      assert rs[0] == Print(es[0], rs[0].terms, rs[0].blank);
      assert forall k | 0 <= k < |es| - 1 :: es[1..][k] == es[k + 1] && rs[1..][k] == rs[k + 1];
      PrintedEvents(es[1..], rs[1..], end);
      assert Sent(es) == [Event(es[0].name, Join(es[0].data), es[0].id, 0)] + Sent(es[1..]);
    }
  }
}

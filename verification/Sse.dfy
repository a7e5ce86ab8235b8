/** The incremental Server-Sent Events reader (internal/httpclient/sse.go). A string stands for bytes. */
module Sse {
  import opened Options

  const MAX: nat := 4 * 1024 * 1024   // maxSSEEventSize

  datatype Err = Eof | IoError | LineTooLong | EventTooLong

  datatype Event = Event(event: string, data: string, id: string, retry: int)

  datatype Outcome = Got(event: Event) | Failed(err: Err)

  predicate IsBreak(c: char) { c == '\n' || c == '\r' }

  predicate NoBreak(s: string) { forall i | 0 <= i < |s| :: !IsBreak(s[i]) }

  // ---- Lines ----

  /** The length of the first line. */
  function LineLen(s: string): (n: nat)
    ensures n <= |s| && NoBreak(s[..n]) && (n < |s| ==> IsBreak(s[n]))
  {
    if s == "" || IsBreak(s[0]) then 0
    else
      var n := 1 + LineLen(s[1..]);
      assert s[..n] == [s[0]] + s[1..][..n - 1];
      n
  }

  /** What follows a terminator that starts at `n`: CRLF is one terminator. */
  function AfterBreak(s: string, n: nat): string
    requires n < |s|
  {
    if s[n] == '\r' then DropLF(s[n + 1..]) else s[n + 1..]
  }

  function DropLF(s: string): string {
    if s != "" && s[0] == '\n' then s[1..] else s
  }

  datatype LineRead =
    | Line(text: string, rest: string)   // a terminated line
    | Last(text: string)                 // the bytes before the end of the stream
    | TooLong(rest: string)              // more than MAX bytes: the bytes read so far are lost

  function NextLine(s: string): (r: LineRead)
    ensures r.Line? ==> |r.rest| < |s| && NoBreak(r.text) && |r.text| <= MAX
    ensures r.Last? ==> r.text == s && NoBreak(s)
    ensures r.TooLong? ==> |r.rest| < |s|
  {
    var n := LineLen(s);
    if n > MAX then TooLong(s[MAX + 1..])
    else if n == |s| then Last(s)
    else Line(s[..n], AfterBreak(s, n))
  }

  // ---- Events ----

  /** The local variables of Read. */
  datatype Partial = Partial(event: string, id: string, dataLines: seq<string>, hasData: bool, size: nat)

  const EMPTY := Partial("", "", [], false, 0)

  function Join(lines: seq<string>): string {
    if lines == [] then ""
    else if |lines| == 1 then lines[0]
    else lines[0] + "\n" + Join(lines[1..])
  }

  /** strings.Index(s, ":"), or the length of `s`. */
  function Colon(s: string): (n: nat)
    ensures n <= |s| && (n < |s| ==> s[n] == ':')
  {
    if s == "" || s[0] == ':' then 0 else 1 + Colon(s[1..])
  }

  function Value(line: string): string {
    var n := Colon(line);
    if n == |line| then ""
    else if n + 1 < |line| && line[n + 1] == ' ' then line[n + 2..]
    else line[n + 1..]
  }

  /** The effect of one non-empty line. */
  function Apply(p: Partial, line: string): Partial {
    if line != "" && line[0] == ':' then p
    else
      var field, value := line[..Colon(line)], Value(line);
      if field == "data" then p.(dataLines := p.dataLines + [value], hasData := true)
      else if field == "event" then p.(event := value)
      else if field == "id" then p.(id := value)
      else p
  }

  function Finished(p: Partial): Event {
    Event(p.event, Join(p.dataLines), p.id, 0)
  }

  datatype Verdict = More(p: Partial) | Stop(outcome: Outcome)

  /** What one line read does to the event under construction. A buffered event is returned at the end of the
      stream, and a blank line without data keeps the event name and ID. */
  function Judge(read: LineRead, p: Partial, end: Err): (v: Verdict)
    ensures v.More? ==> read.Line? && v.p.size <= MAX
  {
    match read
    case TooLong(_) => Stop(Failed(LineTooLong))
    case Line(text, _) =>
      var q := p.(size := p.size + |text|);
      if q.size > MAX then Stop(Failed(EventTooLong))
      else if text == "" then if q.hasData then Stop(Got(Finished(q))) else More(q.(size := 0))
      else More(Apply(q, text))
    case Last(text) =>
      var q := p.(size := p.size + |text|);
      if text != "" && q.size > MAX then Stop(Failed(EventTooLong))
      else
        var f := if text == "" then q else Apply(q, text);
        Stop(if end == Eof && f.hasData then Got(Finished(f)) else Failed(end))
  }

  function RestAfter(read: LineRead): string {
    if read.Last? then "" else read.rest
  }

  /** Read from a stream that ends in `end`: the outcome and the bytes left. */
  function ReadFrom(s: string, p: Partial, end: Err): (r: (Outcome, string))
    ensures |r.1| <= |s| && (r.0.Got? && !p.hasData ==> |r.1| < |s|)
    decreases |s|
  {
    var read := NextLine(s);
    match Judge(read, p, end)
    case Stop(outcome) => (outcome, RestAfter(read))
    case More(q) => ReadFrom(RestAfter(read), q, end)
  }

  /** All events of a stream, and the error after them. */
  function ReadAll(s: string, end: Err): (seq<Event>, Err)
    decreases |s|
  {
    var r := ReadFrom(s, EMPTY, end);
    match r.0
    case Failed(err) => ([], err)
    case Got(e) =>
      var more := ReadAll(r.1, end);
      ([e] + more.0, more.1)
  }

  // ---- How readLine ends ----

  lemma {:induction false} LineLenIs(s: string, n: nat)
    requires n <= |s| && NoBreak(s[..n])
    ensures LineLen(s) >= n && (n == |s| || IsBreak(s[n]) ==> LineLen(s) == n)
  {
    if n > 0 {
      assert s[0] == s[..n][0] && s[1..][..n - 1] == s[..n][1..];
      LineLenIs(s[1..], n - 1);
    }
  }

  lemma {:induction false} BreakEndsLine(s: string, line: string, b: char, input: string)
    requires s == line + [b] + input && NoBreak(line) && IsBreak(b) && |line| <= MAX
    ensures NextLine(s) == Line(line, if b == '\r' then DropLF(input) else input)
  {
    hide LineLen;
    assert s[..|line|] == line && s[|line|] == b && s[|line| + 1..] == input;
    LineLenIs(s, |line|);
  }

  lemma {:induction false} CutLine(s: string, line: string, b: char, input: string)
    requires s == line + [b] + input && NoBreak(line) && !IsBreak(b) && |line| == MAX
    ensures NextLine(s) == TooLong(input)
  {
    hide LineLen;
    assert s[..|line| + 1] == line + [b] && s[MAX + 1..] == input;
    LineLenIs(s, |line| + 1);
  }

  lemma {:induction false} EndsLine(s: string)
    requires NoBreak(s) && |s| <= MAX
    ensures NextLine(s) == Last(s)
  {
    hide LineLen;
    assert s[..|s|] == s;
    LineLenIs(s, |s|);
  }

  // ---- The reader ----

  function TrimSuffix(s: string, c: char): string {
    if s != "" && s[|s| - 1] == c then s[..|s| - 1] else s
  }

  class SSEReader {
    var input: string      // bytes the bufio reader has still to deliver
    const end: Err         // what ReadByte reports after them
    var pendingLF: bool
    var closed: bool

    constructor (bytes: string, end: Err)
      requires end == Eof || end == IoError
      ensures Rest() == bytes && !closed && this.end == end
    {
      input, pendingLF, closed, this.end := bytes, false, false, end;
    }

    /** The bytes after the lines read so far: a LF still to be paired with a CR is not one of them. */
    ghost function Rest(): string
      reads this
    {
      if pendingLF then DropLF(input) else input
    }

    /** readLine: the line with its terminator normalised to LF. */
    method ReadLine() returns (line: string, err: Option<Err>)
      modifies this`input, this`pendingLF
      ensures match NextLine(old(Rest()))
              case Line(text, rest) => line == text + "\n" && err == None && Rest() == rest
              case Last(text) => line == text && err == Some(end) && Rest() == ""
              case TooLong(rest) => line == "" && err == Some(LineTooLong) && Rest() == rest
    {
      hide NextLine, LineLen, AfterBreak;
      ghost var s := Rest();
      if pendingLF {
        pendingLF := false;
        if input == "" {
          EndsLine(s);
          return "", Some(end);
        }
        if input[0] == '\n' { input := input[1..]; }
      }
      line := "";
      while input != ""
        invariant !pendingLF && s == line + input && NoBreak(line) && |line| <= MAX
        decreases |input|
      {
        var b := input[0];
        input := input[1..];
        assert s == line + [b] + input;
        if IsBreak(b) {
          BreakEndsLine(s, line, b, input);
          pendingLF := b == '\r';
          return line + "\n", None;
        }
        if |line| >= MAX {
          CutLine(s, line, b, input);
          return "", Some(LineTooLong);
        }
        line := line + [b];
      }
      assert s == line;
      EndsLine(s);
      return line, Some(end);
    }

    /** Read: the next event, or why there is none. */
    method Read() returns (r: Outcome)
      requires end == Eof || end == IoError
      modifies this`input, this`pendingLF
      ensures closed ==> r == Failed(Eof) && Rest() == old(Rest())
      ensures !closed ==> (r, Rest()) == ReadFrom(old(Rest()), EMPTY, end)
    {
      hide ReadFrom, NextLine, Join, Value, Colon, Rest;
      if closed { return Failed(Eof); }
      ghost var s := Rest();
      var event, id, dataLines, hasData := "", "", [], false;
      var eventSize: nat := 0;
      while true
        invariant ReadFrom(s, EMPTY, end) == ReadFrom(Rest(), Partial(event, id, dataLines, hasData, eventSize), end)
        decreases |Rest()|
      {
        ghost var read := NextLine(Rest());
        ghost var verdict := Judge(read, Partial(event, id, dataLines, hasData, eventSize), end);
        ReadFromUnfolds(Rest(), Partial(event, id, dataLines, hasData, eventSize), end);
        var line, readErr := ReadLine();
        if line != "" {
          var lineContent := TrimSuffix(line, '\n');
          assert lineContent == read.text;
          eventSize := eventSize + |lineContent|;
          if eventSize > MAX { return Failed(EventTooLong); }
          line := TrimSuffix(lineContent, '\r');
          assert line == read.text;
          if line == "" {
            if hasData { return Got(Event(event, Join(dataLines), id, 0)); }
            if readErr == None {
              eventSize := 0;
              continue;
            }
          } else if line[0] == ':' {
            // a comment
          } else {
            var field, value := line[..Colon(line)], Value(line);
            if field == "data" {
              dataLines := dataLines + [value];
              hasData := true;
            } else if field == "event" {
              event := value;
            } else if field == "id" {
              id := value;
            }
          }
        }
        if readErr.Some? {
          if readErr.value == Eof {
            if hasData { return Got(Event(event, Join(dataLines), id, 0)); }
            return Failed(Eof);
          }
          return Failed(readErr.value);
        }
      }
    }
  }

  lemma ReadFromUnfolds(s: string, p: Partial, end: Err)
    ensures var read := NextLine(s);
      ReadFrom(s, p, end) == match Judge(read, p, end)
                             case Stop(outcome) => (outcome, RestAfter(read))
                             case More(q) => ReadFrom(RestAfter(read), q, end)
  {
  }
}

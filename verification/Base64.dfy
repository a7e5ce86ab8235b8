/** The base64 encoding of RFC 4648, section 4, and the decoder of Go's encoding/base64 for it: line breaks are skipped,
    padding is required, and unused trailing bits are not checked. */
module Base64 {
  import opened Options

  type byte = x: int | 0 <= x < 256

  type sextet = x: int | 0 <= x < 64

  function Symbol(v: sextet): char {
    if v < 26 then 'A' + v as char
    else if v < 52 then 'a' + (v - 26) as char
    else if v < 62 then '0' + (v - 52) as char
    else if v == 62 then '+'
    else '/'
  }

  function Value(c: char): Option<sextet> {
    if 'A' <= c <= 'Z' then Some((c - 'A') as int)
    else if 'a' <= c <= 'z' then Some((c - 'a') as int + 26)
    else if '0' <= c <= '9' then Some((c - '0') as int + 52)
    else if c == '+' then Some(62)
    else if c == '/' then Some(63)
    else None
  }

  lemma ValueOfSymbol(v: sextet)
    ensures Value(Symbol(v)) == Some(v)
    ensures Symbol(v) != '=' && Symbol(v) != '\r' && Symbol(v) != '\n'
  {
  }

  lemma SymbolOfValue(c: char)
    requires Value(c).Some?
    ensures Symbol(Value(c).value) == c
  {
  }

  function EncodeOne(a: byte): string {
    [Symbol(a / 4), Symbol(a % 4 * 16), '=', '=']
  }

  function EncodeTwo(a: byte, b: byte): string {
    [Symbol(a / 4), Symbol(a % 4 * 16 + b / 16), Symbol(b % 16 * 4), '=']
  }

  function EncodeThree(a: byte, b: byte, c: byte): string {
    [Symbol(a / 4), Symbol(a % 4 * 16 + b / 16), Symbol(b % 16 * 4 + c / 64), Symbol(c % 64)]
  }

  function Encode(b: seq<byte>): string {
    if |b| == 0 then ""
    else if |b| == 1 then EncodeOne(b[0])
    else if |b| == 2 then EncodeTwo(b[0], b[1])
    else EncodeThree(b[0], b[1], b[2]) + Encode(b[3..])
  }

  /** The test vectors of section 10 of RFC 4648, and one with the last two symbols. */
  lemma Vectors()
    ensures Encode([]) == "" && Encode([0x66]) == "Zg==" && Encode([0x66, 0x6f]) == "Zm8="
    ensures Encode([0x66, 0x6f, 0x6f]) == "Zm9v" && Encode([0xfb, 0xff]) == "+/8="
    ensures Encode([0x66, 0x6f, 0x6f, 0x62]) == "Zm9vYg=="
    ensures Encode([0x66, 0x6f, 0x6f, 0x62, 0x61]) == "Zm9vYmE="
    ensures Encode([0x66, 0x6f, 0x6f, 0x62, 0x61, 0x72]) == "Zm9vYmFy"
  {
    assert [0x66, 0x6f, 0x6f, 0x62][3..] == [0x62] && [0x66, 0x6f, 0x6f, 0x62, 0x61][3..] == [0x62, 0x61];
    assert [0x66, 0x6f, 0x6f, 0x62, 0x61, 0x72][3..] == [0x62, 0x61, 0x72] && [0x62, 0x61, 0x72][3..] == [];
  }

  /** One group of four characters, the last one if `last`. */
  function DecodeQuad(q: string, last: bool): Option<seq<byte>>
    requires |q| == 4
  {
    var v0, v1, v2, v3 := Value(q[0]), Value(q[1]), Value(q[2]), Value(q[3]);
    if v0.None? || v1.None? then None
    else if q[2] == '=' then if q[3] == '=' && last then Some([v0.value * 4 + v1.value / 16]) else None
    else if v2.None? then None
    else if q[3] == '=' then
      if last then Some([v0.value * 4 + v1.value / 16, v1.value % 16 * 16 + v2.value / 4]) else None
    else if v3.None? then None
    else Some([v0.value * 4 + v1.value / 16, v1.value % 16 * 16 + v2.value / 4, v2.value % 4 * 64 + v3.value])
  }

  function DecodeQuads(s: string): Option<seq<byte>> {
    if s == "" then Some([])
    else if |s| < 4 then None
    else
      var quad, rest := DecodeQuad(s[..4], |s| == 4), DecodeQuads(s[4..]);
      if quad.None? || rest.None? then None else Some(quad.value + rest.value)
  }

  function WithoutBreaks(s: string): string {
    if s == "" then ""
    else (if s[0] == '\r' || s[0] == '\n' then "" else [s[0]]) + WithoutBreaks(s[1..])
  }

  function Decode(s: string): Option<seq<byte>> {
    DecodeQuads(WithoutBreaks(s))
  }

  predicate NoBreaks(s: string) {
    '\r' !in s && '\n' !in s
  }

  lemma {:induction false} BreaksStay(s: string)
    requires NoBreaks(s)
    ensures WithoutBreaks(s) == s
  {
    if s != "" {
      assert s[0] in s;
      BreaksStay(s[1..]);
    }
  }

  lemma BitsTogether(a: byte, b: byte, c: byte)
    ensures a / 4 * 4 + (a % 4 * 16) / 16 == a == a / 4 * 4 + (a % 4 * 16 + b / 16) / 16
    ensures (a % 4 * 16 + b / 16) % 16 * 16 + (b % 16 * 4) / 4 == b
      == (a % 4 * 16 + b / 16) % 16 * 16 + (b % 16 * 4 + c / 64) / 4
    ensures (b % 16 * 4 + c / 64) % 4 * 64 + c % 64 == c
  {
  }

  lemma QuadOne(a: byte)
    ensures DecodeQuad(EncodeOne(a), true) == Some([a]) && NoBreaks(EncodeOne(a))
  {
    hide Symbol, Value;
    NotSymbols();
    ValueOfSymbol(a / 4);
    ValueOfSymbol(a % 4 * 16);
    BitsTogether(a, 0, 0);
  }

  lemma QuadTwo(a: byte, b: byte)
    ensures DecodeQuad(EncodeTwo(a, b), true) == Some([a, b]) && NoBreaks(EncodeTwo(a, b))
  {
    hide Symbol, Value;
    NotSymbols();
    ValueOfSymbol(a / 4);
    ValueOfSymbol(a % 4 * 16 + b / 16);
    ValueOfSymbol(b % 16 * 4);
    BitsTogether(a, b, 0);
  }

  lemma QuadThree(a: byte, b: byte, c: byte, last: bool)
    ensures DecodeQuad(EncodeThree(a, b, c), last) == Some([a, b, c]) && NoBreaks(EncodeThree(a, b, c))
  {
    hide Symbol, Value;
    ValueOfSymbol(a / 4);
    ValueOfSymbol(a % 4 * 16 + b / 16);
    ValueOfSymbol(b % 16 * 4 + c / 64);
    ValueOfSymbol(c % 64);
    BitsTogether(a, b, c);
  }

  lemma NotSymbols()
    ensures Value('=').None? && Value('\r').None? && Value('\n').None?
  {
  }

  lemma LastQuad(q: string)
    requires |q| == 4
    ensures DecodeQuads(q) == DecodeQuad(q, true)
  {
    assert q[..4] == q && q[4..] == "";
    assert DecodeQuads("") == Some([]);
    if DecodeQuad(q, true).Some? {
      assert DecodeQuad(q, true).value + [] == DecodeQuad(q, true).value;
    }
  }

  lemma {:induction false} QuadsRoundTrip(b: seq<byte>)
    ensures DecodeQuads(Encode(b)) == Some(b) && NoBreaks(Encode(b))
  {
    hide DecodeQuad, EncodeOne, EncodeTwo, EncodeThree;
    Lengths(b);
    if |b| == 0 {
    } else if |b| == 1 {
      QuadOne(b[0]);
      LastQuad(EncodeOne(b[0]));
      assert b == [b[0]];
    } else if |b| == 2 {
      QuadTwo(b[0], b[1]);
      LastQuad(EncodeTwo(b[0], b[1]));
      assert b == [b[0], b[1]];
    } else {
      var head, rest := EncodeThree(b[0], b[1], b[2]), Encode(b[3..]);
      QuadThree(b[0], b[1], b[2], rest == "");
      QuadsRoundTrip(b[3..]);
      assert (head + rest)[..4] == head && (head + rest)[4..] == rest;
      assert b == [b[0], b[1], b[2]] + b[3..];
    }
  }

  lemma Lengths(b: seq<byte>)
    ensures |b| == 1 ==> |EncodeOne(b[0])| == 4
    ensures |b| == 2 ==> |EncodeTwo(b[0], b[1])| == 4
    ensures |b| > 2 ==> |EncodeThree(b[0], b[1], b[2])| == 4
  {
  }

  /** What was encoded is decoded. */
  lemma RoundTrip(b: seq<byte>)
    ensures Decode(Encode(b)) == Some(b)
  {
    QuadsRoundTrip(b);
    BreaksStay(Encode(b));
  }

  // ---- Which texts are canonical ----

  /** Unused bits before the padding are zero (section 3.5 of RFC 4648). */
  predicate TightQuad(q: string)
    requires |q| == 4
  {
    && (q[2] == '=' && Value(q[1]).Some? ==> Value(q[1]).value % 16 == 0)
    && (q[2] != '=' && q[3] == '=' && Value(q[2]).Some? ==> Value(q[2]).value % 4 == 0)
  }

  predicate Canonical(s: string) {
    NoBreaks(s) && (|s| >= 4 ==> TightQuad(s[|s| - 4..]))
  }

  lemma QuadEncoded(q: string, last: bool)
    requires |q| == 4 && DecodeQuad(q, last).Some?
    ensures Encode(DecodeQuad(q, last).value) == q <==> TightQuad(q)
    ensures !last ==> |DecodeQuad(q, last).value| == 3 && TightQuad(q)
  {
    hide Symbol, Value, Encode;
    var v0, v1 := Value(q[0]).value, Value(q[1]).value;
    SymbolOfValue(q[0]);
    SymbolOfValue(q[1]);
    if q[2] == '=' {
      OneBack(v0, v1);
      SymbolsDiffer(v1, v1 / 16 * 16);
      assert q == [q[0], q[1], '=', '='];
    } else {
      var v2 := Value(q[2]).value;
      SymbolOfValue(q[2]);
      if q[3] == '=' {
        TwoBack(v0, v1, v2);
        SymbolsDiffer(v2, v2 / 4 * 4);
        assert q == [q[0], q[1], q[2], '='];
      } else {
        SymbolOfValue(q[3]);
        ThreeBack(v0, v1, v2, Value(q[3]).value);
        assert q == [q[0], q[1], q[2], q[3]];
      }
    }
  }

  lemma SymbolsDiffer(v: sextet, w: sextet)
    ensures Symbol(v) == Symbol(w) <==> v == w
  {
    ValueOfSymbol(v);
    ValueOfSymbol(w);
  }

  lemma OneBack(x: sextet, y: sextet)
    ensures var a: byte := x * 4 + y / 16; Encode([a]) == [Symbol(x), Symbol(y / 16 * 16), '=', '=']
  {
    var a: byte := x * 4 + y / 16;
    assert a / 4 == x && a % 4 == y / 16;
  }

  lemma TwoBack(x: sextet, y: sextet, z: sextet)
    ensures var a: byte, b: byte := x * 4 + y / 16, y % 16 * 16 + z / 4;
      Encode([a, b]) == [Symbol(x), Symbol(y), Symbol(z / 4 * 4), '=']
  {
    var a: byte, b: byte := x * 4 + y / 16, y % 16 * 16 + z / 4;
    assert a / 4 == x && a % 4 == y / 16;
    assert b / 16 == y % 16 && b % 16 == z / 4;
  }

  lemma ThreeBack(x: sextet, y: sextet, z: sextet, w: sextet)
    ensures var a: byte, b: byte, c: byte := x * 4 + y / 16, y % 16 * 16 + z / 4, z % 4 * 64 + w;
      Encode([a, b, c]) == [Symbol(x), Symbol(y), Symbol(z), Symbol(w)]
  {
    var a: byte, b: byte, c: byte := x * 4 + y / 16, y % 16 * 16 + z / 4, z % 4 * 64 + w;
    assert a / 4 == x && a % 4 == y / 16;
    assert b / 16 == y % 16 && b % 16 == z / 4;
    assert c / 64 == z % 4 && c % 64 == w;
    assert [a, b, c][3..] == [];
  }

  lemma EncodeAfterThree(h: seq<byte>, t: seq<byte>)
    requires |h| == 3
    ensures Encode(h + t) == Encode(h) + Encode(t)
  {
    hide Symbol, EncodeOne, EncodeTwo, EncodeThree;
    assert (h + t)[3..] == t && h[3..] == [];
    NothingEncoded();
    var quad := EncodeThree(h[0], h[1], h[2]);
    assert Encode(h) == quad + "" == quad;
  }

  lemma NothingEncoded()
    ensures Encode([]) == ""
  {
  }

  lemma {:induction false} QuadsEncoded(s: string)
    requires DecodeQuads(s).Some?
    ensures |s| == 0 || |s| >= 4
    ensures Encode(DecodeQuads(s).value) == s <==> (|s| >= 4 ==> TightQuad(s[|s| - 4..]))
  {
    hide DecodeQuad, TightQuad, Encode;
    if s == "" {
      assert Encode([]) == "" by { NothingEncoded(); }
    } else {
      var q, rest := s[..4], s[4..];
      var head := DecodeQuad(q, |s| == 4).value;
      QuadEncoded(q, |s| == 4);
      QuadsEncoded(rest);
      assert s == q + rest;
      if rest == "" {
        assert s == q && s[|s| - 4..] == q;
        assert DecodeQuads(s).value == head;
      } else {
        EncodeAfterThree(head, DecodeQuads(rest).value);
        assert s[|s| - 4..] == rest[|rest| - 4..];
        assert q + Encode(DecodeQuads(rest).value) == s <==> Encode(DecodeQuads(rest).value) == rest by {
          assert (q + Encode(DecodeQuads(rest).value))[4..] == Encode(DecodeQuads(rest).value);
        }
      }
    }
  }

  /** A text that decodes is what its bytes encode to exactly when it has no line breaks and no stray trailing bits. */
  lemma CanonicalExactly(s: string)
    requires Decode(s).Some?
    ensures Encode(Decode(s).value) == s <==> Canonical(s)
  {
    QuadsRoundTrip(Decode(s).value);
    if NoBreaks(s) {
      BreaksStay(s);
      QuadsEncoded(s);
    }
  }
}

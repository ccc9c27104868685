/**
 * The base64 encoding of section 4 of RFC 4648 (alphabet A-Z a-z 0-9 + /,
 * output padded with '=' to a multiple of four characters), as PHP's
 * base64_encode produces it, and a strict decoder for it.
 *
 * Three input bytes b0 b1 b2 form four six-bit groups:
 *   b0 / 4,  (b0 % 4) * 16 + b1 / 16,  (b1 % 16) * 4 + b2 / 64,  b2 % 64
 */
module Base64 {
  import opened Wrappers
  import opened Bytes

  type sextet = x: int | 0 <= x < 64

  predicate IsAlphabetChar(c: char) {
    'A' <= c <= 'Z' || 'a' <= c <= 'z' || '0' <= c <= '9' || c == '+' || c == '/'
  }

  /** The value of an alphabet character (table 1 of RFC 4648). */
  function IndexOf(c: char): sextet
    requires IsAlphabetChar(c)
  {
    if 'A' <= c <= 'Z' then c as int - 'A' as int
    else if 'a' <= c <= 'z' then c as int - 'a' as int + 26
    else if '0' <= c <= '9' then c as int - '0' as int + 52
    else if c == '+' then 62
    else 63
  }

  /** The alphabet character of a six-bit value; IndexOf undoes it. */
  function CharOf(i: sextet): (c: char)
    ensures IsAlphabetChar(c) && IndexOf(c) == i
  {
    if i < 26 then ('A' as int + i) as char
    else if i < 52 then ('a' as int + i - 26) as char
    else if i < 62 then ('0' as int + i - 52) as char
    else if i == 62 then '+'
    else '/'
  }

  function EncodeTriple(b0: byte, b1: byte, b2: byte): (r: string)
    ensures |r| == 4 && forall i :: 0 <= i < 4 ==> IsAlphabetChar(r[i])
  {
    var x0, x1, x2 := b0 as int, b1 as int, b2 as int;
    [CharOf(x0 / 4), CharOf((x0 % 4) * 16 + x1 / 16), CharOf((x1 % 16) * 4 + x2 / 64), CharOf(x2 % 64)]
  }

  function EncodePair(b0: byte, b1: byte): string {
    var x0, x1 := b0 as int, b1 as int;
    [CharOf(x0 / 4), CharOf((x0 % 4) * 16 + x1 / 16), CharOf((x1 % 16) * 4), '=']
  }

  function EncodeSingle(b0: byte): string {
    var x0 := b0 as int;
    [CharOf(x0 / 4), CharOf((x0 % 4) * 16), '=', '=']
  }

  /**
   * base64_encode: every character is in the alphabet, except for at most
   * two '=' at the very end, and the length is four per started group of
   * three bytes.
   */
  function Encode(b: seq<byte>): (r: string)
    ensures |r| == 4 * ((|b| + 2) / 3)
    ensures |r| % 4 == 0
    ensures forall i :: 0 <= i < |r| ==> IsAlphabetChar(r[i]) || r[i] == '='
    ensures forall i :: 0 <= i < |r| - 2 ==> IsAlphabetChar(r[i])
    decreases |b|
  {
    if |b| == 0 then ""
    else if |b| == 1 then EncodeSingle(b[0])
    else if |b| == 2 then EncodePair(b[0], b[1])
    else EncodeTriple(b[0], b[1], b[2]) + Encode(b[3..])
  }

  /** The three bytes that four six-bit values stand for. */
  function DecodeQuad(c0: sextet, c1: sextet, c2: sextet, c3: sextet): seq<byte> {
    [(c0 * 4 + c1 / 16) as byte, ((c1 % 16) * 16 + c2 / 4) as byte, ((c2 % 4) * 64 + c3) as byte]
  }

  /** The last group of four characters, which may end in one or two '='. */
  function DecodeLast(c0: char, c1: char, c2: char, c3: char): Option<seq<byte>> {
    if !(IsAlphabetChar(c0) && IsAlphabetChar(c1)) then None
    else if c2 == '=' && c3 == '=' then
      Some(DecodeQuad(IndexOf(c0), IndexOf(c1), 0, 0)[..1])
    else if IsAlphabetChar(c2) && c3 == '=' then
      Some(DecodeQuad(IndexOf(c0), IndexOf(c1), IndexOf(c2), 0)[..2])
    else if IsAlphabetChar(c2) && IsAlphabetChar(c3) then
      Some(DecodeQuad(IndexOf(c0), IndexOf(c1), IndexOf(c2), IndexOf(c3)))
    else None
  }

  /**
   * Strict decoding: the text must be whole groups of four alphabet
   * characters, padding allowed only in the last group; anything else is
   * None.
   */
  function Decode(s: string): (r: Option<seq<byte>>)
    ensures r.Some? ==> |s| % 4 == 0 && |r.value| <= |s| / 4 * 3
    decreases |s|
  {
    if |s| == 0 then Some([])
    else if |s| < 4 then None
    else if |s| == 4 then DecodeLast(s[0], s[1], s[2], s[3])
    else if IsAlphabetChar(s[0]) && IsAlphabetChar(s[1]) && IsAlphabetChar(s[2]) && IsAlphabetChar(s[3]) then
      match Decode(s[4..])
      case None => None
      case Some(rest) => Some(DecodeQuad(IndexOf(s[0]), IndexOf(s[1]), IndexOf(s[2]), IndexOf(s[3])) + rest)
    else None
  }

  lemma TripleRoundTrip(b0: byte, b1: byte, b2: byte)
    ensures var e := EncodeTriple(b0, b1, b2);
      DecodeQuad(IndexOf(e[0]), IndexOf(e[1]), IndexOf(e[2]), IndexOf(e[3])) == [b0, b1, b2]
  {
    var x0, x1, x2 := b0 as int, b1 as int, b2 as int;
    var c1 := (x0 % 4) * 16 + x1 / 16;
    var c2 := (x1 % 16) * 4 + x2 / 64;
    assert c1 / 16 == x0 % 4 && c1 % 16 == x1 / 16;
    assert c2 / 4 == x1 % 16 && c2 % 4 == x2 / 64;
  }

  lemma SingleRoundTrip(b0: byte)
    ensures Decode(EncodeSingle(b0)) == Some([b0])
  {
    var x0 := b0 as int;
    var c1 := (x0 % 4) * 16;
    assert c1 / 16 == x0 % 4;
    assert DecodeQuad(x0 / 4, c1, 0, 0)[..1] == [b0];
  }

  lemma PairRoundTrip(b0: byte, b1: byte)
    ensures Decode(EncodePair(b0, b1)) == Some([b0, b1])
  {
    var x0, x1 := b0 as int, b1 as int;
    var c1 := (x0 % 4) * 16 + x1 / 16;
    var c2 := (x1 % 16) * 4;
    assert c1 / 16 == x0 % 4 && c1 % 16 == x1 / 16;
    assert c2 / 4 == x1 % 16;
    assert DecodeQuad(x0 / 4, c1, c2, 0)[..2] == [b0, b1];
  }

  /** A full group in front of a non-empty encoding decodes group by group. */
  lemma DecodeFullGroupPrefix(head: string, tail: string, rest: seq<byte>)
    requires |head| == 4 && |tail| >= 4
    requires forall i :: 0 <= i < 4 ==> IsAlphabetChar(head[i])
    requires Decode(tail) == Some(rest)
    ensures Decode(head + tail) ==
      Some(DecodeQuad(IndexOf(head[0]), IndexOf(head[1]), IndexOf(head[2]), IndexOf(head[3])) + rest)
  {
    var s := head + tail;
    assert s[4..] == tail;
    assert s[0] == head[0] && s[1] == head[1] && s[2] == head[2] && s[3] == head[3];
  }

  lemma TripleOnlyRoundTrip(b0: byte, b1: byte, b2: byte)
    ensures Decode(EncodeTriple(b0, b1, b2)) == Some([b0, b1, b2])
  {
    var e := EncodeTriple(b0, b1, b2);
    TripleRoundTrip(b0, b1, b2);
    assert Decode(e) == DecodeLast(e[0], e[1], e[2], e[3]);
  }

  /** One step of the round trip: the first group, then the rest. */
  lemma SplitThree(b: seq<byte>)
    requires |b| >= 3
    ensures b == [b[0], b[1], b[2]] + b[3..]
  {
  }

  lemma EncodeStep(b: seq<byte>)
    requires |b| > 3
    requires Decode(Encode(b[3..])) == Some(b[3..])
    ensures Decode(Encode(b)) == Some(b)
  {
    var head, tail := EncodeTriple(b[0], b[1], b[2]), Encode(b[3..]);
    SplitThree(b);
    assert Encode(b) == head + tail;
    DecodeFullGroupPrefix(head, tail, b[3..]);
    TripleRoundTrip(b[0], b[1], b[2]);
  }

  /** Decoding what base64_encode produced gives back the input bytes. */
  lemma {:induction false} DecodeEncode(b: seq<byte>)
    ensures Decode(Encode(b)) == Some(b)
    decreases |b|
  {
    if |b| == 0 {
    } else if |b| == 1 {
      SingleRoundTrip(b[0]);
      assert b == [b[0]];
    } else if |b| == 2 {
      PairRoundTrip(b[0], b[1]);
      assert b == [b[0], b[1]];
    } else if |b| == 3 {
      TripleOnlyRoundTrip(b[0], b[1], b[2]);
      assert Encode(b) == EncodeTriple(b[0], b[1], b[2]) + Encode([]);
      assert b == [b[0], b[1], b[2]];
    } else {
      DecodeEncode(b[3..]);
      EncodeStep(b);
    }
  }

  /** Distinct byte strings have distinct encodings. */
  lemma EncodeInjective(a: seq<byte>, b: seq<byte>)
    requires Encode(a) == Encode(b)
    ensures a == b
  {
    DecodeEncode(a);
    DecodeEncode(b);
  }
}

/**
 * PHP's serialize and unserialize, for null and string values: null is
 * written  N;  and a string of n bytes  s:<n in decimal>:"<the n bytes>";
 */
module PhpSerialize {
  import opened Wrappers
  import opened Bytes

  const LowerS: byte := 115       // 's'
  const Colon: byte := 58         // ':'
  const DoubleQuote: byte := 34   // '"'
  const Semicolon: byte := 59     // ';'
  const DigitZero: byte := 48     // '0'
  const UpperN: byte := 78        // 'N'

  /** The PHP values serialized here: null (what a missing claim reads as) and byte strings. */
  datatype Value = Null | Str(bytes: seq<byte>)

  predicate IsDigit(b: byte) {
    DigitZero <= b <= DigitZero + 9
  }

  predicate AllDigits(ds: seq<byte>) {
    forall i :: 0 <= i < |ds| ==> IsDigit(ds[i])
  }

  /** The decimal numeral of n, without leading zeros, as PHP prints a length. */
  function Decimal(n: nat): (ds: seq<byte>)
    ensures |ds| >= 1 && AllDigits(ds)
    ensures |ds| > 1 ==> ds[0] != DigitZero
    decreases n
  {
    if n < 10 then [DigitZero + n as byte]
    else Decimal(n / 10) + [DigitZero + (n % 10) as byte]
  }

  /** The value of a decimal numeral (PHP's reading of an unsigned integer). */
  function DigitsValue(ds: seq<byte>): nat
    requires AllDigits(ds)
    decreases |ds|
  {
    if |ds| == 0 then 0
    else DigitsValue(ds[..|ds| - 1]) * 10 + (ds[|ds| - 1] - DigitZero) as int
  }

  lemma {:induction false} DigitsValueDecimal(n: nat)
    ensures DigitsValue(Decimal(n)) == n
    decreases n
  {
    if n >= 10 {
      DigitsValueDecimal(n / 10);
      var ds := Decimal(n);
      assert ds[..|ds| - 1] == Decimal(n / 10);
    }
  }

  /** How many digits Decimal writes, for the ranges a badge identifier's length bound needs. */
  lemma {:induction false} DecimalWidth(n: nat)
    ensures n < 10 ==> |Decimal(n)| == 1
    ensures 10 <= n < 100 ==> |Decimal(n)| == 2
    ensures 100 <= n < 1000 ==> |Decimal(n)| == 3
    ensures 1000 <= n < 10000 ==> |Decimal(n)| == 4
    ensures 10000 <= n ==> |Decimal(n)| >= 5
    decreases n
  {
    if n >= 10 {
      DecimalWidth(n / 10);
    }
  }

  /** The end of the run of digits that starts at position i. */
  function DigitRun(b: seq<byte>, i: nat): (end: nat)
    requires i <= |b|
    ensures i <= end <= |b|
    ensures forall k :: i <= k < end ==> IsDigit(b[k])
    ensures end < |b| ==> !IsDigit(b[end])
    decreases |b| - i
  {
    if i < |b| && IsDigit(b[i]) then DigitRun(b, i + 1) else i
  }

  /** serialize($s) for a PHP string $s. */
  function Serialize(s: seq<byte>): seq<byte> {
    [LowerS, Colon] + Decimal(|s|) + [Colon, DoubleQuote] + s + [DoubleQuote, Semicolon]
  }

  /**
   * unserialize($b) when $b holds a serialized string: "s:", at least one
   * digit giving the length n, ':"', n bytes, '";'. Anything else is None
   * (PHP returns false). Bytes after the closing ';' are ignored, as PHP
   * ignores them (PHP 8.3 adds a warning).
   */
  function Unserialize(b: seq<byte>): (r: Option<seq<byte>>)
    ensures r.Some? ==> |r.value| < |b|
  {
    if |b| < 2 || b[0] != LowerS || b[1] != Colon then None
    else
      var k := DigitRun(b, 2);
      if k == 2 then None
      else
        var n := DigitsValue(b[2..k]);
        if k + n + 4 <= |b| && b[k] == Colon && b[k + 1] == DoubleQuote
           && b[k + 2 + n] == DoubleQuote && b[k + 3 + n] == Semicolon
        then Some(b[k + 2..k + 2 + n])
        else None
  }

  /** unserialize(serialize($s)) === $s. */
  lemma SerializeRoundTrip(s: seq<byte>)
    ensures Unserialize(Serialize(s)) == Some(s)
  {
    var d := Decimal(|s|);
    var b := Serialize(s);
    var k := 2 + |d|;
    assert b[2..k] == d;
    assert b[k] == Colon;
    assert DigitRun(b, 2) == k;
    DigitsValueDecimal(|s|);
    assert b[k + 2..k + 2 + |s|] == s;
  }

  /** Distinct strings serialize differently. */
  lemma SerializeInjective(s: seq<byte>, t: seq<byte>)
    requires Serialize(s) == Serialize(t)
    ensures s == t
  {
    SerializeRoundTrip(s);
    SerializeRoundTrip(t);
  }

  /** serialize($v) for null or a string. */
  function SerializeValue(v: Value): seq<byte> {
    match v
    case Null => [UpperN, Semicolon]
    case Str(s) => Serialize(s)
  }

  /**
   * unserialize($b) when $b holds a serialized null or string; None is
   * PHP's false. As for strings, bytes after the closing ';' are ignored.
   */
  function UnserializeValue(b: seq<byte>): (r: Option<Value>)
    ensures r.Some? && r.value.Str? ==> |r.value.bytes| < |b|
    ensures r == Some(Null) <==> |b| >= 2 && b[0] == UpperN && b[1] == Semicolon
  {
    if |b| >= 2 && b[0] == UpperN && b[1] == Semicolon then Some(Null)
    else
      match Unserialize(b)
      case None => None
      case Some(s) => Some(Str(s))
  }

  /** unserialize(serialize($v)) === $v, for null and for every string. */
  lemma ValueRoundTrip(v: Value)
    ensures UnserializeValue(SerializeValue(v)) == Some(v)
  {
    if v.Str? {
      SerializeRoundTrip(v.bytes);
    }
  }

  /** Distinct values serialize differently; in particular no string serializes like null. */
  lemma SerializeValueInjective(v: Value, w: Value)
    requires SerializeValue(v) == SerializeValue(w)
    ensures v == w
  {
    ValueRoundTrip(v);
    ValueRoundTrip(w);
  }
}

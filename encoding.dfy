/** Text encodings the reducers and the framework rely on: lower-case hex
    (`hex::encode`, and the `padStart(2, "0")` rendering of an address in an
    error message), `hex::decode`, the decimal rendering of a bigint
    (`BigInt.prototype.toString`) and Rust's `i64::from_str`. */
module Encoding {
  import opened Wrappers
  import opened Chain

  // ---------------------------------------------------------------- hex

  const LowerHex := "0123456789abcdef"

  /** Two lower-case hex digits for one byte, high nibble first. */
  function HexByte(b: byte): string {
    [LowerHex[b / 16], LowerHex[b % 16]]
  }

  function Hex(bytes: seq<byte>): (s: string)
    ensures |s| == 2 * |bytes|
  {
    if bytes == [] then [] else HexByte(bytes[0]) + Hex(bytes[1..])
  }

  /** The value of one hex digit; `hex::decode` accepts either case. */
  function HexDigitValue(c: char): Option<nat> {
    if '0' <= c <= '9' then Some(c as int - '0' as int)
    else if 'a' <= c <= 'f' then Some(c as int - 'a' as int + 10)
    else if 'A' <= c <= 'F' then Some(c as int - 'A' as int + 10)
    else None
  }

  /** `hex::decode`: fails on an odd length or on a non-hex character. */
  function HexDecode(s: string): (r: Option<seq<byte>>)
    ensures r.Some? ==> 2 * |r.value| == |s|
    decreases |s|
  {
    if |s| % 2 == 1 then None
    else if s == [] then Some([])
    else
      match (HexDigitValue(s[0]), HexDigitValue(s[1]))
      case (Some(hi), Some(lo)) =>
        assert hi < 16 && lo < 16;
        (match HexDecode(s[2..])
         case Some(rest) => Some([(hi * 16 + lo) as byte] + rest)
         case None => None)
      case _ => None
  }

  lemma HexByteDigits(b: byte)
    ensures HexDigitValue(HexByte(b)[0]) == Some(b / 16)
    ensures HexDigitValue(HexByte(b)[1]) == Some(b % 16)
  {
  }

  /** Decoding the hex rendering of any byte string gives the bytes back. */
  lemma {:induction false} HexRoundTrip(bytes: seq<byte>)
    ensures HexDecode(Hex(bytes)) == Some(bytes)
  {
    if bytes != [] {
      var s := Hex(bytes);
      assert s == HexByte(bytes[0]) + Hex(bytes[1..]);
      assert s[2..] == Hex(bytes[1..]);
      HexByteDigits(bytes[0]);
      HexRoundTrip(bytes[1..]);
      var b := bytes[0];
      assert (b / 16) * 16 + b % 16 == b;
      assert HexDecode(s) == Some([b] + bytes[1..]);
      assert [b] + bytes[1..] == bytes;
    }
  }

  /** Distinct byte strings have distinct hex renderings. */
  lemma HexInjective(a: seq<byte>, b: seq<byte>)
    ensures Hex(a) == Hex(b) ==> a == b
  {
    HexRoundTrip(a);
    HexRoundTrip(b);
  }

  // ------------------------------------------------------------ decimal

  predicate IsDigit(c: char) {
    '0' <= c <= '9'
  }

  predicate AllDigits(s: string) {
    forall i :: 0 <= i < |s| ==> IsDigit(s[i])
  }

  function DigitChar(d: nat): (c: char)
    requires d < 10
    ensures IsDigit(c)
  {
    (d + '0' as int) as char
  }

  /** The shortest decimal digits of a natural number. */
  function Digits(n: nat): (s: string)
    ensures |s| > 0 && AllDigits(s)
    ensures s[0] == '0' ==> n == 0
  {
    if n < 10 then [DigitChar(n)] else Digits(n / 10) + [DigitChar(n % 10)]
  }

  /** `value.toString()` of a JavaScript bigint: a minus sign for negative
      values, then the digits, with no leading zeros and no width limit. */
  function DecimalString(n: int): string {
    if n < 0 then "-" + Digits(-n) else Digits(n)
  }

  /** The value of a non-empty digit string, most significant digit first. */
  function DigitsValue(s: string): nat
    requires AllDigits(s)
  {
    if s == [] then 0
    else DigitsValue(s[..|s| - 1]) * 10 + (s[|s| - 1] as int - '0' as int)
  }

  /** An optionally signed decimal integer, as Rust's integer parsing reads it:
      one optional `+` or `-`, then at least one digit and nothing else. */
  function ParseDecimal(s: string): (r: Option<int>)
    ensures r.Some? ==> |s| > 0
  {
    if s == [] then None
    else if s[0] == '-' || s[0] == '+' then
      var body := s[1..];
      if body != [] && AllDigits(body) then
        var m: int := DigitsValue(body);
        Some(if s[0] == '-' then -m else m)
      else None
    else if AllDigits(s) then Some(DigitsValue(s))
    else None
  }

  lemma {:induction false} DigitsRoundTrip(n: nat)
    ensures DigitsValue(Digits(n)) == n
  {
    if n >= 10 {
      var s := Digits(n);
      assert s[..|s| - 1] == Digits(n / 10);
      DigitsRoundTrip(n / 10);
    }
  }

  /** The decimal rendering of every integer parses back to that integer: the
      string carries the exact value, with no truncation. */
  lemma DecimalRoundTrip(n: int)
    ensures ParseDecimal(DecimalString(n)) == Some(n)
  {
    if n < 0 {
      var body := Digits(-n);
      var s := "-" + body;
      assert s[0] == '-' && s[1..] == body;
      DigitsRoundTrip(-n);
      var m: int := DigitsValue(body);
      assert ParseDecimal(s) == Some(-m);
    } else {
      var s := Digits(n);
      assert s[0] != '-' && s[0] != '+';
      DigitsRoundTrip(n);
    }
  }

  // ---------------------------------------------------------------- i64

  const I64_MIN: int := -0x8000_0000_0000_0000
  const I64_MAX: int := 0x7fff_ffff_ffff_ffff

  predicate InI64(n: int) {
    I64_MIN <= n <= I64_MAX
  }

  /** `i64::from_str`: a decimal integer that fits in 64 signed bits. */
  function I64FromStr(s: string): (r: Option<int>)
    ensures r.Some? ==> InI64(r.value)
  {
    match ParseDecimal(s)
    case Some(n) => if InI64(n) then Some(n) else None
    case None => None
  }

  /** Parsing the decimal string of an integer succeeds exactly when the
      integer fits in an i64, and then gives back that integer. */
  lemma I64DecimalRoundTrip(n: int)
    ensures I64FromStr(DecimalString(n)) == if InI64(n) then Some(n) else None
  {
    DecimalRoundTrip(n);
  }
}

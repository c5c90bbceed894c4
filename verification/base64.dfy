/** Standard Base64 with padding (`Convert.ToBase64String`), used to render the
    random bytes of a refresh token, with its decoder. */
module Base64 {
  import opened Wrappers

  newtype byte = x: int | 0 <= x < 256

  /** The character for a six-bit value: A-Z, a-z, 0-9, '+', '/'. */
  function Digit(v: int): (c: char)
    requires 0 <= v < 64
  {
    if v < 26 then ('A' as int + v) as char
    else if v < 52 then ('a' as int + v - 26) as char
    else if v < 62 then ('0' as int + v - 52) as char
    else if v == 62 then '+'
    else '/'
  }

  predicate IsDigit(c: char) {
    'A' <= c <= 'Z' || 'a' <= c <= 'z' || '0' <= c <= '9' || c == '+' || c == '/'
  }

  /** The six-bit value of a Base64 character. */
  function DigitValue(c: char): (v: int)
    requires IsDigit(c)
    ensures 0 <= v < 64 && Digit(v) == c
  {
    if 'A' <= c <= 'Z' then c as int - 'A' as int
    else if 'a' <= c <= 'z' then c as int - 'a' as int + 26
    else if '0' <= c <= '9' then c as int - '0' as int + 52
    else if c == '+' then 62
    else 63
  }

  lemma DigitRoundTrip(v: int)
    requires 0 <= v < 64
    ensures IsDigit(Digit(v)) && DigitValue(Digit(v)) == v
  {
  }

  /** Encodes three bytes at a time; a final one or two bytes get `==` or `=` padding. */
  function Encode(b: seq<byte>): (r: string)
    ensures |r| == 4 * ((|b| + 2) / 3)
    ensures forall i :: 0 <= i < |r| ==> IsDigit(r[i]) || r[i] == '='
  {
    if |b| == 0 then ""
    else
      var b0 := b[0] as int;
      if |b| == 1 then
        [Digit(b0 / 4), Digit((b0 % 4) * 16), '=', '=']
      else
        var b1 := b[1] as int;
        if |b| == 2 then
          [Digit(b0 / 4), Digit((b0 % 4) * 16 + b1 / 16), Digit((b1 % 16) * 4), '=']
        else
          var b2 := b[2] as int;
          [Digit(b0 / 4), Digit((b0 % 4) * 16 + b1 / 16), Digit((b1 % 16) * 4 + b2 / 64), Digit(b2 % 64)]
            + Encode(b[3..])
  }

  /** Decodes a padded Base64 string; `None` when it is not well formed. */
  function Decode(s: string): (r: Option<seq<byte>>)
    decreases |s|
  {
    if |s| == 0 then Some([])
    else if |s| < 4 || !IsDigit(s[0]) || !IsDigit(s[1]) then None
    else
      var v0 := DigitValue(s[0]);
      var v1 := DigitValue(s[1]);
      if |s| == 4 && s[2] == '=' && s[3] == '=' then
        Some([(v0 * 4 + v1 / 16) as byte])
      else if !IsDigit(s[2]) then None
      else
        var v2 := DigitValue(s[2]);
        if |s| == 4 && s[3] == '=' then
          Some([(v0 * 4 + v1 / 16) as byte, ((v1 % 16) * 16 + v2 / 4) as byte])
        else if !IsDigit(s[3]) then None
        else
          var v3 := DigitValue(s[3]);
          match Decode(s[4..])
          case None => None
          case Some(rest) =>
            Some([(v0 * 4 + v1 / 16) as byte, ((v1 % 16) * 16 + v2 / 4) as byte,
                  ((v2 % 4) * 64 + v3) as byte] + rest)
  }

  /** The bit arithmetic of one group: the six-bit digits recombine into the bytes. */
  lemma GroupArithmetic(b0: int, b1: int, b2: int)
    requires 0 <= b0 < 256 && 0 <= b1 < 256 && 0 <= b2 < 256
    ensures (b0 / 4) * 4 + ((b0 % 4) * 16 + b1 / 16) / 16 == b0
    ensures (((b0 % 4) * 16 + b1 / 16) % 16) * 16 + ((b1 % 16) * 4 + b2 / 64) / 4 == b1
    ensures (((b1 % 16) * 4 + b2 / 64) % 4) * 64 + b2 % 64 == b2
    ensures (b0 / 4) * 4 + ((b0 % 4) * 16) / 16 == b0
    ensures (((b0 % 4) * 16 + b1 / 16) % 16) * 16 + ((b1 % 16) * 4) / 4 == b1
  {
  }

  lemma DecodeOne(b: seq<byte>)
    requires |b| == 1
    ensures Decode(Encode(b)) == Some(b)
  {
    var b0 := b[0] as int;
    var d0, d1 := b0 / 4, (b0 % 4) * 16;
    var s := Encode(b);
    assert s == [Digit(d0), Digit(d1), '=', '='];
    DigitRoundTrip(d0);
    DigitRoundTrip(d1);
    GroupArithmetic(b0, 0, 0);
    assert Decode(s) == Some([(d0 * 4 + d1 / 16) as byte]);
    assert b == [b[0]];
  }

  lemma DecodeTwo(b: seq<byte>)
    requires |b| == 2
    ensures Decode(Encode(b)) == Some(b)
  {
    var b0 := b[0] as int;
    var b1 := b[1] as int;
    var d0, d1, d2 := b0 / 4, (b0 % 4) * 16 + b1 / 16, (b1 % 16) * 4;
    var s := Encode(b);
    assert s == [Digit(d0), Digit(d1), Digit(d2), '='];
    DigitRoundTrip(d0);
    DigitRoundTrip(d1);
    DigitRoundTrip(d2);
    GroupArithmetic(b0, b1, 0);
    assert Decode(s) == Some([(d0 * 4 + d1 / 16) as byte, ((d1 % 16) * 16 + d2 / 4) as byte]);
    assert b == [b[0], b[1]];
  }

  /** A full group of four digits decodes to three bytes followed by the rest. */
  lemma DecodeFullGroup(s: string, rest: seq<byte>)
    requires |s| >= 4 && IsDigit(s[0]) && IsDigit(s[1]) && IsDigit(s[2]) && IsDigit(s[3])
    requires Decode(s[4..]) == Some(rest)
    ensures Decode(s) == Some([
      (DigitValue(s[0]) * 4 + DigitValue(s[1]) / 16) as byte,
      ((DigitValue(s[1]) % 16) * 16 + DigitValue(s[2]) / 4) as byte,
      ((DigitValue(s[2]) % 4) * 64 + DigitValue(s[3])) as byte] + rest)
  {
  }

  /** The first group of an encoding of three or more bytes holds the digits of those bytes. */
  lemma EncodeFirstGroup(b: seq<byte>)
    requires |b| >= 3
    ensures var s := Encode(b);
      var b0, b1, b2 := b[0] as int, b[1] as int, b[2] as int;
      && |s| >= 4 && s[4..] == Encode(b[3..])
      && s[0] == Digit(b0 / 4) && s[1] == Digit((b0 % 4) * 16 + b1 / 16)
      && s[2] == Digit((b1 % 16) * 4 + b2 / 64) && s[3] == Digit(b2 % 64)
  {
  }

  /** A group holding the digits of three bytes, followed by a decodable rest, decodes to them. */
  lemma DecodeGroupBytes(s: string, b: seq<byte>)
    requires |b| >= 3 && |s| >= 4
    requires var b0, b1, b2 := b[0] as int, b[1] as int, b[2] as int;
      && s[0] == Digit(b0 / 4) && s[1] == Digit((b0 % 4) * 16 + b1 / 16)
      && s[2] == Digit((b1 % 16) * 4 + b2 / 64) && s[3] == Digit(b2 % 64)
    requires Decode(s[4..]) == Some(b[3..])
    ensures Decode(s) == Some(b)
  {
    var b0, b1, b2 := b[0] as int, b[1] as int, b[2] as int;
    DigitRoundTrip(b0 / 4);
    DigitRoundTrip((b0 % 4) * 16 + b1 / 16);
    DigitRoundTrip((b1 % 16) * 4 + b2 / 64);
    DigitRoundTrip(b2 % 64);
    DecodeFullGroup(s, b[3..]);
    GroupArithmetic(b0, b1, b2);
    assert b == [b[0], b[1], b[2]] + b[3..];
  }

  lemma DecodeThreeOrMore(b: seq<byte>)
    requires |b| >= 3
    requires Decode(Encode(b[3..])) == Some(b[3..])
    ensures Decode(Encode(b)) == Some(b)
  {
    EncodeFirstGroup(b);
    DecodeGroupBytes(Encode(b), b);
  }

  /** Decoding an encoding gives the bytes back. */
  lemma {:induction false} DecodeEncode(b: seq<byte>)
    ensures Decode(Encode(b)) == Some(b)
  {
    if |b| == 1 {
      DecodeOne(b);
    } else if |b| == 2 {
      DecodeTwo(b);
    } else if |b| >= 3 {
      DecodeEncode(b[3..]);
      DecodeThreeOrMore(b);
    }
  }
}

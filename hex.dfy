/**
 * The lower-case hexadecimal encoding that Node's `Buffer.toString('hex')`
 * applies to the random bytes of a password-reset token.
 */
module Hex {
  import opened Wrappers

  type byte = x: int | 0 <= x < 256

  /** A password-reset token is made from this many random bytes. */
  const TOKEN_BYTES := 32

  type RandomBytes = b: seq<byte> | |b| == TOKEN_BYTES
    witness seq(TOKEN_BYTES, _ => 0)

  predicate IsLowerHexDigit(c: char) {
    '0' <= c <= '9' || 'a' <= c <= 'f'
  }

  function Digit(n: nat): (c: char)
    requires n < 16
    ensures IsLowerHexDigit(c)
    ensures DigitValue(c) == Some(n)
  {
    if n < 10 then ('0' as int + n) as char else ('a' as int + n - 10) as char
  }

  /** The inverse of `Digit`; `None` for anything but a lower-case hex digit. */
  function DigitValue(c: char): (r: Option<nat>)
    ensures r.Some? <==> IsLowerHexDigit(c)
    ensures r.Some? ==> r.value < 16
  {
    if '0' <= c <= '9' then Some(c as int - '0' as int)
    else if 'a' <= c <= 'f' then Some(c as int - 'a' as int + 10)
    else None
  }

  /** Two digits per byte, high nibble first. */
  function Encode(b: seq<byte>): (s: string)
    ensures |s| == 2 * |b|
    ensures forall i :: 0 <= i < |s| ==> IsLowerHexDigit(s[i])
  {
    if b == [] then []
    else [Digit(b[0] / 16), Digit(b[0] % 16)] + Encode(b[1..])
  }

  /** Reads a string of an even number of lower-case hex digits back into bytes. */
  function Decode(s: string): Option<seq<byte>>
    decreases |s|
  {
    if |s| == 0 then Some([])
    else if |s| == 1 then None
    else
      match (DigitValue(s[0]), DigitValue(s[1]), Decode(s[2..]))
      case (Some(hi), Some(lo), Some(rest)) => Some([hi * 16 + lo] + rest)
      case _ => None
  }

  lemma {:induction false} DecodeEncode(b: seq<byte>)
    ensures Decode(Encode(b)) == Some(b)
  {
    if b != [] {
      var s := Encode(b);
      assert s[2..] == Encode(b[1..]);
      DecodeEncode(b[1..]);
      assert [b[0] / 16 * 16 + b[0] % 16] + b[1..] == b;
    }
  }

  /** Distinct random bytes give distinct tokens. */
  lemma EncodeInjective(a: seq<byte>, b: seq<byte>)
    ensures Encode(a) == Encode(b) ==> a == b
  {
    DecodeEncode(a);
    DecodeEncode(b);
  }

  /** A reset token is 64 lower-case hex characters. */
  function Token(random: RandomBytes): (t: string)
    ensures |t| == 2 * TOKEN_BYTES
    ensures forall i :: 0 <= i < |t| ==> IsLowerHexDigit(t[i])
    ensures Decode(t) == Some(random)
  {
    DecodeEncode(random);
    Encode(random)
  }
}

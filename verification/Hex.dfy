/** `lowercase_hex` of crates/immich-client/src/archive.rs. */
module Hex {
  import opened Bytes
  import opened Wrappers

  const DIGITS := "0123456789abcdef"

  /** The number a lowercase digit stands for. */
  function DigitValue(c: char): Option<nat> {
    if '0' <= c <= '9' then Some(c as int - '0' as int)
    else if 'a' <= c <= 'f' then Some(c as int - 'a' as int + 10)
    else None
  }

  /** The inverse: reads digit pairs, most significant first. */
  function Decode(text: string): Option<seq<Byte>> {
    if |text| == 0 then Some([])
    else if |text| == 1 then None
    else
      var high, low, rest := DigitValue(text[0]), DigitValue(text[1]), Decode(text[2..]);
      if high.None? || low.None? || rest.None? then None
      else Some([(16 * high.value + low.value) as Byte] + rest.value)
  }

  function Encode(bytes: seq<Byte>): (text: string)
    ensures |text| == 2 * |bytes|
  {
    if |bytes| == 0 then ""
    else [DIGITS[bytes[0] / 16], DIGITS[bytes[0] % 16]] + Encode(bytes[1..])
  }

  lemma DigitsHaveTheirValues(n: nat)
    requires n < 16
    ensures DigitValue(DIGITS[n]) == Some(n)
  {
    assert |DIGITS| == 16;
  }

  lemma {:induction false} DecodeInvertsEncode(bytes: seq<Byte>)
    ensures Decode(Encode(bytes)) == Some(bytes)
  {
    if |bytes| > 0 {
      DigitsHaveTheirValues(bytes[0] / 16);
      DigitsHaveTheirValues(bytes[0] % 16);
      DecodeInvertsEncode(bytes[1..]);
      assert Encode(bytes)[2..] == Encode(bytes[1..]);
      assert bytes == [bytes[0]] + bytes[1..];
    }
  }

  /** Comparing the texts of two checksums compares the checksums. */
  lemma EncodeIsInjective(a: seq<Byte>, b: seq<Byte>)
    requires Encode(a) == Encode(b)
    ensures a == b
  {
    DecodeInvertsEncode(a);
    DecodeInvertsEncode(b);
  }

  lemma {:induction false} EncodeAppends(bytes: seq<Byte>, last: Byte)
    ensures Encode(bytes + [last]) == Encode(bytes) + [DIGITS[last / 16], DIGITS[last % 16]]
  {
    if |bytes| > 0 {
      assert (bytes + [last])[1..] == bytes[1..] + [last];
      EncodeAppends(bytes[1..], last);
    }
  }

  /** The loop: two digits per byte, readable back as the same bytes. */
  method LowercaseHex(bytes: seq<Byte>) returns (output: string)
    ensures output == Encode(bytes)
    ensures |output| == 2 * |bytes| && Decode(output) == Some(bytes)
  {
    output := "";
    for i := 0 to |bytes|
      invariant output == Encode(bytes[..i])
    {
      assert bytes[..i + 1] == bytes[..i] + [bytes[i]];
      EncodeAppends(bytes[..i], bytes[i]);
      output := output + [DIGITS[bytes[i] / 16]];
      output := output + [DIGITS[bytes[i] % 16]];
    }
    assert bytes[..|bytes|] == bytes;
    DecodeInvertsEncode(bytes);
  }
}

/** Bytes, and the ASCII encoding both script codecs start from. */
module Bytes {
  import opened Wrappers

  type Byte = b: int | 0 <= b < 256

  predicate IsAscii(value: string) {
    forall i :: 0 <= i < |value| ==> value[i] as int < 128
  }

  function Ascii(value: string): (bytes: seq<Byte>)
    requires IsAscii(value)
    ensures |bytes| == |value|
  {
    seq(|value|, i requires 0 <= i < |value| => value[i] as int)
  }

  predicate OccursAt(text: seq<Byte>, pattern: seq<Byte>, at: int) {
    0 <= at && at + |pattern| <= |text| && text[at..at + |pattern|] == pattern
  }
}

/** Facts about Rust strings that validators in several crates use. */
module Text {

  /** `str::len`: the bytes of the UTF-8 form. */
  function Utf8Length(value: string): nat {
    if |value| == 0 then 0
    else
      var c := value[0] as int;
      (if c < 0x80 then 1 else if c < 0x800 then 2 else if c < 0x1_0000 then 3 else 4) + Utf8Length(value[1..])
  }

  /** `char::is_control`. */
  predicate IsControl(c: char) {
    c as int < 0x20 || 0x7F <= c as int <= 0x9F
  }

  /** How many characters have a code point of at least the limit. */
  function FromUpwards(value: string, limit: int): nat {
    if |value| == 0 then 0
    else (if value[0] as int >= limit then 1 else 0) + FromUpwards(value[1..], limit)
  }

  /** Each character takes one byte, and one more from each of the three limits of UTF-8 upwards. */
  lemma {:induction false} Utf8LengthMeans(value: string)
    ensures Utf8Length(value) ==
      |value| + FromUpwards(value, 0x80) + FromUpwards(value, 0x800) + FromUpwards(value, 0x1_0000)
  {
    if |value| > 0 {
      Utf8LengthMeans(value[1..]);
    }
  }
}

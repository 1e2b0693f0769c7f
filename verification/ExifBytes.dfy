/** The bytes of the EXIF segment, one by one: the tags are those of TIFF 6.0, Exif 2.32 and the maker
    note's content identifier. */
module ExifBytes {
  import opened BigEndian
  import opened Bytes
  import opened ExifPayload
  import opened Wrappers

  lemma SmallNumbers(n: nat)
    requires n < 256
    ensures U16(n) == [0, n] && U32(n) == [0, 0, 0, n]
  {
  }

  /** Make (0x010F, ASCII), model (0x0110, ASCII) and the pointer to the Exif directory (0x8769, LONG). */
  lemma Ifd0Bytes()
    ensures Ifd0() ==
      [0, 3]
      + [0x01, 0x0F, 0, 2, 0, 0, 0, 6, 0, 0, 0, 50]
      + [0x01, 0x10, 0, 2, 0, 0, 0, 17, 0, 0, 0, 56]
      + [0x87, 0x69, 0, 4, 0, 0, 0, 1, 0, 0, 0, 74]
      + [0, 0, 0, 0]
  {
    hide U16, U32;
    SmallNumbers(0);
    SmallNumbers(1);
    SmallNumbers(2);
    SmallNumbers(3);
    SmallNumbers(4);
    SmallNumbers(6);
    SmallNumbers(17);
    SmallNumbers(50);
    SmallNumbers(56);
    SmallNumbers(74);
    Tags();
    assert |MAKE| == 6 && |MODEL| == 17;
    assert Entry(MAKE_TAG, ASCII_TYPE, 6, U32(50)) == [0x01, 0x0F, 0, 2, 0, 0, 0, 6, 0, 0, 0, 50];
    assert Entry(MODEL_TAG, ASCII_TYPE, 17, U32(56)) == [0x01, 0x10, 0, 2, 0, 0, 0, 17, 0, 0, 0, 56];
    assert Entry(EXIF_TAG, LONG_TYPE, 1, U32(74)) == [0x87, 0x69, 0, 4, 0, 0, 0, 1, 0, 0, 0, 74];
  }

  lemma Tags()
    ensures U16(MAKE_TAG) == [0x01, 0x0F] && U16(MODEL_TAG) == [0x01, 0x10] && U16(EXIF_TAG) == [0x87, 0x69]
    ensures U16(MAKER_NOTE_TAG) == [0x92, 0x7C] && U16(IDENTIFIER_TAG) == [0x00, 0x11]
  {
  }

  /** The maker note (0x927C, UNDEFINED). */
  lemma ExifIfdBytes(size: nat)
    requires size < 256
    ensures ExifIfd(size) == [0, 1] + [0x92, 0x7C, 0, 7, 0, 0, 0, size, 0, 0, 0, 92] + [0, 0, 0, 0]
  {
    hide U16, U32;
    SmallNumbers(0);
    SmallNumbers(1);
    SmallNumbers(7);
    SmallNumbers(92);
    SmallNumbers(size);
    Tags();
    assert Entry(MAKER_NOTE_TAG, UNDEFINED_TYPE, size, U32(92)) == [0x92, 0x7C, 0, 7, 0, 0, 0, size, 0, 0, 0, 92];
  }

  /** `Apple iOS`, the maker note's version and byte order, and its one entry (0x0011, ASCII). */
  lemma MakerNoteBytes(identifier: seq<Byte>)
    requires |identifier| <= 128
    ensures MakerNote(identifier) ==
      Ascii("Apple iOS") + [0, 0, 1] + Ascii("MM")
      + [0, 1] + [0x00, 0x11, 0, 2, 0, 0, 0, |identifier|, 0, 0, 0, 32] + [0, 0, 0, 0]
      + identifier
  {
    hide U16, U32;
    SmallNumbers(0);
    SmallNumbers(1);
    SmallNumbers(2);
    SmallNumbers(32);
    SmallNumbers(|identifier|);
    Tags();
    assert Entry(IDENTIFIER_TAG, ASCII_TYPE, |identifier|, U32(32)) == [0x00, 0x11, 0, 2, 0, 0, 0, |identifier|, 0, 0, 0, 32];
    assert MAKER_NOTE_HEADER == Ascii("Apple iOS") + [0, 0, 1] + Ascii("MM");
  }

  lemma TiffBytes(identifier: seq<Byte>)
    requires |identifier| <= 128
    ensures Tiff(identifier) ==
      (Ascii("MM") + [0] + Ascii("*") + [0, 0, 0, 8])
      + (Ifd0() + (Ascii("Apple") + [0] + (Ascii("Synthetic iPhone") + [0, 0] + (ExifIfd(32 + |identifier|) + MakerNote(identifier)))))
  {
    hide Ifd0, ExifIfd, MakerNote, U32;
    SmallNumbers(8);
    assert TIFF_MAGIC == Ascii("MM") + [0] + Ascii("*");
    assert MAKE == Ascii("Apple") + [0];
    assert MODEL == Ascii("Synthetic iPhone") + [0];
    assert MODEL + [0] == Ascii("Synthetic iPhone") + [0, 0];
    assert MODEL + ([0] + (ExifIfd(32 + |identifier|) + MakerNote(identifier)))
        == (MODEL + [0]) + (ExifIfd(32 + |identifier|) + MakerNote(identifier));
  }

  /** An identifier of at most 127 ASCII characters gives this payload, and no other identifier gives one. */
  lemma PayloadBytes(identifier: string)
    ensures Payload(identifier).Ok? <==> IsAscii(identifier) && |identifier| <= 127
    ensures Payload(identifier).Ok? ==>
      Payload(identifier).value == Ascii("Exif") + [0, 0] + Tiff(Ascii(identifier) + [0])
  {
    hide Tiff;
    assert EXIF_HEADER == Ascii("Exif") + [0, 0];
  }

  lemma CharactersAreAscii(text: string)
    ensures IsAscii(text) <==> forall c :: c in text ==> '\0' <= c <= '\U{007F}'
    ensures IsAscii(text) ==> |Ascii(text)| == |text| && forall i :: 0 <= i < |text| ==> Ascii(text)[i] == text[i] as int
  {
    if forall c :: c in text ==> '\0' <= c <= '\U{007F}' {
      assert forall i :: 0 <= i < |text| ==> text[i] in text;
    }
  }

  /** The command line admits the prefix with 8 to 80 lower-case letters, digits and hyphens after it. */
  lemma AdmittedExactly(identifier: string)
    ensures IsSynthetic(identifier) <==>
      exists tail :: identifier == "synthetic-" + tail && IsTail(tail)
  {
    if IsSynthetic(identifier) {
      var tail := identifier[10..];
      assert identifier == "synthetic-" + tail;
      forall c | c in tail ensures IsTailCharacter(c) {
        var i :| 0 <= i < |tail| && tail[i] == c;
        assert identifier[i + 10] == c;
      }
    }
    if tail :| identifier == "synthetic-" + tail && IsTail(tail) {
      assert identifier[..10] == "synthetic-";
      forall i | 10 <= i < |identifier| ensures IsTailCharacter(identifier[i]) {
        assert identifier[i] == tail[i - 10];
      }
    }
  }

  predicate IsTailCharacter(c: char) {
    'a' <= c <= 'z' || '0' <= c <= '9' || c == '-'
  }

  predicate IsTail(tail: string) {
    8 <= |tail| <= 80 && forall c :: c in tail ==> IsTailCharacter(c)
  }

  /** The stream begins with the start marker, the APP1 marker and the segment's length, which counts itself. */
  lemma InjectedBytes(identifier: string, jpeg: seq<Byte>)
    ensures Injected(identifier, jpeg).Ok? <==>
            |jpeg| >= 2 && jpeg[0] == 0xFF && jpeg[1] == 0xD8 && Payload(identifier).Ok?
    ensures Injected(identifier, jpeg).Ok? ==>
      var payload := Payload(identifier).value;
      Injected(identifier, jpeg).value
      == [0xFF, 0xD8, 0xFF, 0xE1] + [(|payload| + 2) / 256, (|payload| + 2) % 256] + payload + jpeg[2..]
  {
    hide Payload;
    if |jpeg| >= 2 {
      assert jpeg[..2] == [jpeg[0], jpeg[1]];
      if Payload(identifier).Ok? {
        PayloadFits(identifier);
        assert SOI + APP1 == [0xFF, 0xD8, 0xFF, 0xE1];
      }
    }
  }
}

/** The EXIF writer of scripts/add-live-photo-metadata.py, and a TIFF reader (section 2 of TIFF 6.0)
    to read it back with. */
module ExifPayload {
  import opened BigEndian
  import opened Bytes
  import opened Sequences
  import opened Streams
  import opened Wrappers

  const MAX_IDENTIFIER_BYTES := 128
  const COPY_BUFFER_BYTES := 65_536

  const ASCII_TYPE := 2
  const LONG_TYPE := 4
  const UNDEFINED_TYPE := 7
  const MAKE_TAG := 0x010F
  const MODEL_TAG := 0x0110
  const EXIF_TAG := 0x8769
  const MAKER_NOTE_TAG := 0x927C
  const IDENTIFIER_TAG := 0x0011

  // ---------------------------------------------------------------- the writer

  const MAKE: seq<Byte> := [65, 112, 112, 108, 101, 0]
  const MODEL: seq<Byte> := [83, 121, 110, 116, 104, 101, 116, 105, 99, 32, 105, 80, 104, 111, 110, 101, 0]
  const MAKER_NOTE_HEADER: seq<Byte> := [65, 112, 112, 108, 101, 32, 105, 79, 83, 0, 0, 1, 77, 77]
  const EXIF_HEADER: seq<Byte> := [69, 120, 105, 102, 0, 0]
  const TIFF_MAGIC: seq<Byte> := [77, 77, 0, 42]

  const IFD0_OFFSET: nat := 8
  const MAKE_OFFSET: nat := 50
  const MODEL_OFFSET: nat := 56
  const EXIF_IFD_OFFSET: nat := 74
  const MAKER_NOTE_OFFSET: nat := 92
  const IDENTIFIER_OFFSET: nat := 32

  function Entry(tag: nat, kind: nat, count: nat, field: seq<Byte>): (bytes: seq<Byte>)
    requires tag < 0x1_0000 && kind < 0x1_0000 && count < 0x1_0000_0000 && |field| == 4
    ensures |bytes| == 12
  {
    U16(tag) + U16(kind) + U32(count) + field
  }

  function Ifd0(): (bytes: seq<Byte>)
    ensures |bytes| == 42
  {
    U16(3)
    + Entry(MAKE_TAG, ASCII_TYPE, |MAKE|, U32(MAKE_OFFSET))
    + Entry(MODEL_TAG, ASCII_TYPE, |MODEL|, U32(MODEL_OFFSET))
    + Entry(EXIF_TAG, LONG_TYPE, 1, U32(EXIF_IFD_OFFSET))
    + U32(0)
  }

  function ExifIfd(makerNoteSize: nat): (bytes: seq<Byte>)
    requires makerNoteSize < 0x1_0000_0000
    ensures |bytes| == 18
  {
    U16(1) + Entry(MAKER_NOTE_TAG, UNDEFINED_TYPE, makerNoteSize, U32(MAKER_NOTE_OFFSET)) + U32(0)
  }

  function MakerNote(identifier: seq<Byte>): (bytes: seq<Byte>)
    requires |identifier| <= MAX_IDENTIFIER_BYTES
    ensures |bytes| == 32 + |identifier|
  {
    MAKER_NOTE_HEADER + U16(1) + Entry(IDENTIFIER_TAG, ASCII_TYPE, |identifier|, U32(IDENTIFIER_OFFSET)) + U32(0)
    + identifier
  }

  /** The TIFF structure for an identifier with its terminating NUL. */
  function Tiff(identifier: seq<Byte>): (bytes: seq<Byte>)
    requires |identifier| <= MAX_IDENTIFIER_BYTES
    ensures |bytes| == MAKER_NOTE_OFFSET + 32 + |identifier|
  {
    var makerNote := MakerNote(identifier);
    (TIFF_MAGIC + U32(IFD0_OFFSET)) + (Ifd0() + (MAKE + (MODEL + [0] + (ExifIfd(|makerNote|) + makerNote))))
  }

  datatype MetadataError = NotAscii | IdentifierTooLong | NotAJpeg | PayloadTooLong

  function Payload(identifier: string): Result<seq<Byte>, MetadataError> {
    if !IsAscii(identifier) then Err(NotAscii)
    else if |identifier| + 1 > MAX_IDENTIFIER_BYTES then Err(IdentifierTooLong)
    else
      var payload := EXIF_HEADER + Tiff(Ascii(identifier) + [0]);
      if |payload| + 2 > 65_535 then Err(PayloadTooLong) else Ok(payload)
  }

  // ---------------------------------------------------------------- the reader

  function Slice(data: seq<Byte>, from: nat, length: nat): Option<seq<Byte>> {
    if from + length <= |data| then Some(data[from..from + length]) else None
  }

  datatype Field = Field(tag: nat, kind: nat, count: nat, value: seq<Byte>)

  function TypeSize(kind: nat): nat {
    if kind == 1 || kind == ASCII_TYPE || kind == 6 || kind == UNDEFINED_TYPE then 1
    else if kind == 3 || kind == 8 then 2
    else if kind == LONG_TYPE || kind == 9 || kind == 11 then 4
    else 8
  }

  function ParseField(bytes: seq<Byte>): (field: Field)
    requires |bytes| == 12
    ensures |field.value| == 4
  {
    Field(FromU16(bytes[0..2]), FromU16(bytes[2..4]), FromU32(bytes[4..8]), bytes[8..12])
  }

  /** The field of a directory with the given tag, among those from the i-th on. */
  function FindField(data: seq<Byte>, directory: nat, count: nat, i: nat, tag: nat): Option<Field>
    decreases count - i
  {
    if i >= count then None
    else
      var bytes := Slice(data, directory + 2 + 12 * i, 12);
      if bytes.None? then None
      else if ParseField(bytes.value).tag == tag then Some(ParseField(bytes.value))
      else FindField(data, directory, count, i + 1, tag)
  }

  function Lookup(data: seq<Byte>, directory: nat, tag: nat): Option<Field> {
    var count := Slice(data, directory, 2);
    if count.None? then None else FindField(data, directory, FromU16(count.value), 0, tag)
  }

  /** A value of four bytes or less is stored in the field itself, a longer one at the offset given there. */
  function ValueOf(data: seq<Byte>, field: Field): Option<seq<Byte>>
    requires |field.value| == 4
  {
    var size := TypeSize(field.kind) * field.count;
    if size <= 4 then Some(field.value[..size]) else Slice(data, FromU32(field.value), size)
  }

  function TaggedValue(data: seq<Byte>, directory: nat, tag: nat, kind: nat): Option<seq<Byte>> {
    var field := Lookup(data, directory, tag);
    if field.None? || field.value.kind != kind || |field.value.value| != 4 then None
    else ValueOf(data, field.value)
  }

  /** An ASCII value without its terminating NUL. */
  function TextOf(value: Option<seq<Byte>>): Option<seq<Byte>> {
    if value.None? || |value.value| == 0 || value.value[|value.value| - 1] != 0 then None
    else Some(value.value[..|value.value| - 1])
  }

  /** What a reader finds; the identifier may be unreadable. */
  datatype Recovered = Recovered(make: seq<Byte>, model: seq<Byte>, identifier: Option<seq<Byte>>)

  /** Walks IFD0, the Exif IFD and the maker note's own directory, whose offsets count from the start
      of the maker note. */
  function Recover(data: seq<Byte>): Option<Recovered> {
    var magic, ifd0 := Slice(data, 0, 4), Slice(data, 4, 4);
    if magic != Some(TIFF_MAGIC) || ifd0.None? then None
    else
      var directory := FromU32(ifd0.value);
      var make := TextOf(TaggedValue(data, directory, MAKE_TAG, ASCII_TYPE));
      var model := TextOf(TaggedValue(data, directory, MODEL_TAG, ASCII_TYPE));
      var exif := TaggedValue(data, directory, EXIF_TAG, LONG_TYPE);
      if make.None? || model.None? || exif.None? || |exif.value| != 4 then None
      else
        var makerNote := TaggedValue(data, FromU32(exif.value), MAKER_NOTE_TAG, UNDEFINED_TYPE);
        if makerNote.None? then None
        else Some(Recovered(make.value, model.value, RecoverIdentifier(makerNote.value)))
  }

  function RecoverIdentifier(makerNote: seq<Byte>): Option<seq<Byte>> {
    if Slice(makerNote, 0, 14) != Some(MAKER_NOTE_HEADER) then None
    else TextOf(TaggedValue(makerNote, 14, IDENTIFIER_TAG, ASCII_TYPE))
  }

  // ---------------------------------------------------------------- reading back what was written

  lemma EntryParses(tag: nat, kind: nat, count: nat, field: seq<Byte>)
    requires tag < 0x1_0000 && kind < 0x1_0000 && count < 0x1_0000_0000 && |field| == 4
    ensures ParseField(Entry(tag, kind, count, field)) == Field(tag, kind, count, field)
  {
    hide U16, U32, FromU16, FromU32;
    var bytes := Entry(tag, kind, count, field);
    assert bytes[0..2] == U16(tag) && bytes[2..4] == U16(kind);
    assert bytes[4..8] == U32(count) && bytes[8..12] == field;
    U16RoundTrips(tag);
    U16RoundTrips(kind);
    U32RoundTrips(count);
  }

  /** The sections of a TIFF structure. */
  lemma TiffSections(identifier: seq<Byte>)
    requires |identifier| <= MAX_IDENTIFIER_BYTES
    ensures var data := Tiff(identifier); var size := 32 + |identifier|;
      && data[0..8] == TIFF_MAGIC + U32(IFD0_OFFSET)
      && data[IFD0_OFFSET..MAKE_OFFSET] == Ifd0()
      && data[MAKE_OFFSET..MODEL_OFFSET] == MAKE
      && data[MODEL_OFFSET..MODEL_OFFSET + 17] == MODEL
      && data[EXIF_IFD_OFFSET..MAKER_NOTE_OFFSET] == ExifIfd(size)
      && data[MAKER_NOTE_OFFSET..] == MakerNote(identifier)
  {
    hide Ifd0, ExifIfd, MakerNote, U32;
    var header, model := TIFF_MAGIC + U32(IFD0_OFFSET), MODEL + [0];
    var makerNote := MakerNote(identifier);
    var fromExif := ExifIfd(|makerNote|) + makerNote;
    var fromModel := model + fromExif;
    var fromMake := MAKE + fromModel;
    var fromIfd := Ifd0() + fromMake;
    var data := Tiff(identifier);
    assert data == header + fromIfd;
    assert |header| == 8 && |model| == 18 && |MAKE| == 6;
    assert data[8..] == fromIfd;
    assert data[8..50] == Ifd0();
    assert data[50..] == fromMake;
    assert data[50..56] == MAKE;
    assert data[56..] == fromModel;
    assert data[56..73] == MODEL;
    assert data[74..] == fromExif;
    assert data[74..92] == ExifIfd(|makerNote|);
    assert data[92..] == makerNote;
  }

  lemma Ifd0Entries()
    ensures var ifd := Ifd0();
      && ifd[0..2] == U16(3)
      && ifd[2..14] == Entry(MAKE_TAG, ASCII_TYPE, 6, U32(MAKE_OFFSET))
      && ifd[14..26] == Entry(MODEL_TAG, ASCII_TYPE, 17, U32(MODEL_OFFSET))
      && ifd[26..38] == Entry(EXIF_TAG, LONG_TYPE, 1, U32(EXIF_IFD_OFFSET))
  {
    hide Entry, U16, U32;
    assert |MAKE| == 6 && |MODEL| == 17;
  }

  lemma ExifIfdEntry(size: nat)
    requires size < 0x1_0000_0000
    ensures ExifIfd(size)[0..2] == U16(1)
    ensures ExifIfd(size)[2..14] == Entry(MAKER_NOTE_TAG, UNDEFINED_TYPE, size, U32(MAKER_NOTE_OFFSET))
  {
    hide Entry, U16, U32;
  }

  lemma MakerNoteParts(identifier: seq<Byte>)
    requires |identifier| <= MAX_IDENTIFIER_BYTES
    ensures var note := MakerNote(identifier);
      && note[0..14] == MAKER_NOTE_HEADER
      && note[14..16] == U16(1)
      && note[16..28] == Entry(IDENTIFIER_TAG, ASCII_TYPE, |identifier|, U32(IDENTIFIER_OFFSET))
      && note[IDENTIFIER_OFFSET..] == identifier
  {
    hide Entry, U16, U32;
    assert |MAKER_NOTE_HEADER| == 14;
  }

  lemma SectionSlice(data: seq<Byte>, from: nat, section: seq<Byte>, inner: nat, length: nat)
    requires from + |section| <= |data| && data[from..from + |section|] == section
    requires inner + length <= |section|
    ensures Slice(data, from + inner, length) == Some(section[inner..inner + length])
  {
    var window := data[from + inner..from + inner + length];
    forall k | 0 <= k < length ensures window[k] == section[inner + k] {
      assert data[from..from + |section|][inner + k] == data[from + inner + k];
    }
    assert window == section[inner..inner + length];
  }

  ghost predicate EntryIs(data: seq<Byte>, directory: nat, k: nat, field: Field) {
    var bytes := Slice(data, directory + 2 + 12 * k, 12);
    bytes.Some? && ParseField(bytes.value) == field
  }

  /** Finds the i-th entry when no earlier one has its tag. */
  lemma {:induction false} FindsEntry(data: seq<Byte>, directory: nat, fields: seq<Field>, from: nat, i: nat)
    requires from <= i < |fields|
    requires forall k :: 0 <= k < |fields| ==> EntryIs(data, directory, k, fields[k])
    requires forall k :: from <= k < i ==> fields[k].tag != fields[i].tag
    ensures FindField(data, directory, |fields|, from, fields[i].tag) == Some(fields[i])
    decreases i - from
  {
    hide ParseField;
    assert EntryIs(data, directory, from, fields[from]);
    if from < i {
      FindsEntry(data, directory, fields, from + 1, i);
    }
  }

  const MAKE_FIELD := Field(MAKE_TAG, ASCII_TYPE, 6, U32(MAKE_OFFSET))
  const MODEL_FIELD := Field(MODEL_TAG, ASCII_TYPE, 17, U32(MODEL_OFFSET))
  const EXIF_FIELD := Field(EXIF_TAG, LONG_TYPE, 1, U32(EXIF_IFD_OFFSET))

  function MakerNoteField(size: nat): Field
    requires size < 0x1_0000_0000
  {
    Field(MAKER_NOTE_TAG, UNDEFINED_TYPE, size, U32(MAKER_NOTE_OFFSET))
  }

  function IdentifierField(size: nat): Field
    requires size < 0x1_0000_0000
  {
    Field(IDENTIFIER_TAG, ASCII_TYPE, size, U32(IDENTIFIER_OFFSET))
  }

  lemma ReadsIfd0(identifier: seq<Byte>)
    requires |identifier| <= MAX_IDENTIFIER_BYTES
    ensures var data := Tiff(identifier);
      && Lookup(data, IFD0_OFFSET, MAKE_TAG) == Some(MAKE_FIELD)
      && Lookup(data, IFD0_OFFSET, MODEL_TAG) == Some(MODEL_FIELD)
      && Lookup(data, IFD0_OFFSET, EXIF_TAG) == Some(EXIF_FIELD)
  {
    hide Tiff, Ifd0, ExifIfd, MakerNote, Entry, ParseField, U16, U32, FromU16, FindField, Slice;
    var data, fields := Tiff(identifier), [MAKE_FIELD, MODEL_FIELD, EXIF_FIELD];
    TiffSections(identifier);
    Ifd0Entries();
    SectionSlice(data, IFD0_OFFSET, Ifd0(), 0, 2);
    SectionSlice(data, IFD0_OFFSET, Ifd0(), 2, 12);
    SectionSlice(data, IFD0_OFFSET, Ifd0(), 14, 12);
    SectionSlice(data, IFD0_OFFSET, Ifd0(), 26, 12);
    U16RoundTrips(3);
    EntryParses(MAKE_TAG, ASCII_TYPE, 6, U32(MAKE_OFFSET));
    EntryParses(MODEL_TAG, ASCII_TYPE, 17, U32(MODEL_OFFSET));
    EntryParses(EXIF_TAG, LONG_TYPE, 1, U32(EXIF_IFD_OFFSET));
    assert EntryIs(data, IFD0_OFFSET, 0, fields[0]);
    assert EntryIs(data, IFD0_OFFSET, 1, fields[1]);
    assert EntryIs(data, IFD0_OFFSET, 2, fields[2]);
    FindsEntry(data, IFD0_OFFSET, fields, 0, 0);
    FindsEntry(data, IFD0_OFFSET, fields, 0, 1);
    FindsEntry(data, IFD0_OFFSET, fields, 0, 2);
  }

  lemma ReadsExifIfd(identifier: seq<Byte>)
    requires |identifier| <= MAX_IDENTIFIER_BYTES
    ensures Lookup(Tiff(identifier), EXIF_IFD_OFFSET, MAKER_NOTE_TAG) == Some(MakerNoteField(32 + |identifier|))
  {
    hide Tiff, Ifd0, ExifIfd, MakerNote, Entry, ParseField, U16, U32, FromU16, FindField, Slice;
    var data, size := Tiff(identifier), 32 + |identifier|;
    TiffSections(identifier);
    ExifIfdEntry(size);
    SectionSlice(data, EXIF_IFD_OFFSET, ExifIfd(size), 0, 2);
    SectionSlice(data, EXIF_IFD_OFFSET, ExifIfd(size), 2, 12);
    U16RoundTrips(1);
    EntryParses(MAKER_NOTE_TAG, UNDEFINED_TYPE, size, U32(MAKER_NOTE_OFFSET));
    assert EntryIs(data, EXIF_IFD_OFFSET, 0, MakerNoteField(size));
    FindsEntry(data, EXIF_IFD_OFFSET, [MakerNoteField(size)], 0, 0);
  }

  lemma ReadsMakerNote(identifier: seq<Byte>)
    requires |identifier| <= MAX_IDENTIFIER_BYTES
    ensures Slice(MakerNote(identifier), 0, 14) == Some(MAKER_NOTE_HEADER)
    ensures Lookup(MakerNote(identifier), 14, IDENTIFIER_TAG) == Some(IdentifierField(|identifier|))
  {
    hide MakerNote, Entry, ParseField, U16, U32, FromU16, FindField;
    var note := MakerNote(identifier);
    MakerNoteParts(identifier);
    U16RoundTrips(1);
    EntryParses(IDENTIFIER_TAG, ASCII_TYPE, |identifier|, U32(IDENTIFIER_OFFSET));
    assert EntryIs(note, 14, 0, IdentifierField(|identifier|));
    FindsEntry(note, 14, [IdentifierField(|identifier|)], 0, 0);
  }

  /** The value a reader finds for the identifier: the identifier itself when it needs more than the
      four bytes of the field, else the first bytes of the offset the writer put there. */
  lemma IdentifierValue(identifier: seq<Byte>)
    requires |identifier| <= MAX_IDENTIFIER_BYTES
    ensures TaggedValue(MakerNote(identifier), 14, IDENTIFIER_TAG, ASCII_TYPE)
         == Some(if |identifier| > 4 then identifier else [0, 0, 0, 32][..|identifier|])
  {
    hide MakerNote, Lookup, FromU32;
    ReadsMakerNote(identifier);
    MakerNoteParts(identifier);
    U32RoundTrips(IDENTIFIER_OFFSET);
    var note := MakerNote(identifier);
    assert |note| == IDENTIFIER_OFFSET + |identifier|;
    assert note[IDENTIFIER_OFFSET..] == note[IDENTIFIER_OFFSET..IDENTIFIER_OFFSET + |identifier|];
    assert U32(IDENTIFIER_OFFSET) == [0, 0, 0, 32];
  }

  /** The whole walk, for any identifier the writer accepts. */
  lemma ReadsEverything(identifier: seq<Byte>)
    requires |identifier| <= MAX_IDENTIFIER_BYTES
    ensures var data := Tiff(identifier);
      && TaggedValue(data, IFD0_OFFSET, MAKE_TAG, ASCII_TYPE) == Some(MAKE)
      && TaggedValue(data, IFD0_OFFSET, MODEL_TAG, ASCII_TYPE) == Some(MODEL)
      && TaggedValue(data, IFD0_OFFSET, EXIF_TAG, LONG_TYPE) == Some(U32(EXIF_IFD_OFFSET))
      && TaggedValue(data, EXIF_IFD_OFFSET, MAKER_NOTE_TAG, UNDEFINED_TYPE) == Some(MakerNote(identifier))
  {
    hide Tiff, Lookup, MakerNote, Ifd0, ExifIfd, U32, FromU32, Slice;
    var data, size := Tiff(identifier), 32 + |identifier|;
    ReadsIfd0(identifier);
    ReadsExifIfd(identifier);
    TiffSections(identifier);
    U32RoundTrips(MAKE_OFFSET);
    U32RoundTrips(MODEL_OFFSET);
    U32RoundTrips(MAKER_NOTE_OFFSET);
    SectionSlice(data, MAKE_OFFSET, MAKE, 0, 6);
    SectionSlice(data, MODEL_OFFSET, MODEL, 0, 17);
    assert data[MAKER_NOTE_OFFSET..] == data[MAKER_NOTE_OFFSET..MAKER_NOTE_OFFSET + size];
    SectionSlice(data, MAKER_NOTE_OFFSET, MakerNote(identifier), 0, size);
    assert MAKE[0..6] == MAKE && MODEL[0..17] == MODEL;
    assert MakerNote(identifier)[0..size] == MakerNote(identifier);
    assert U32(EXIF_IFD_OFFSET)[..4] == U32(EXIF_IFD_OFFSET);
  }

  predicate AllZero(bytes: seq<Byte>) {
    forall i :: 0 <= i < |bytes| ==> bytes[i] == 0
  }

  /** When a reader gets an identifier back: from four characters on always, since with its NUL it then
      needs an offset; below that the writer's offset is read as the value, which is the identifier
      only if that is at most two NULs. */
  predicate SurvivesReading(identifier: string) {
    |identifier| >= 4 || (|identifier| <= 2 && forall i :: 0 <= i < |identifier| ==> identifier[i] == '\0')
  }

  lemma IdentifierText(bytes: seq<Byte>)
    requires |bytes| < MAX_IDENTIFIER_BYTES
    ensures RecoverIdentifier(MakerNote(bytes + [0])) == Some(bytes) <==>
            |bytes| >= 4 || (|bytes| <= 2 && AllZero(bytes))
  {
    hide MakerNote, TaggedValue;
    var identifier := bytes + [0];
    ReadsMakerNote(identifier);
    IdentifierValue(identifier);
    assert identifier[..|bytes|] == bytes;
    if |bytes| < 4 {
      var inline := [0, 0, 0, 32][..|identifier|];
      assert |bytes| < 3 ==> inline[..|bytes|] == seq(|bytes|, _ => 0);
      assert AllZero(bytes) ==> bytes == seq(|bytes|, _ => 0);
    }
  }

  /** The round trip, for every text the writer accepts: make and model always come back, and the
      identifier exactly when it survives reading. */
  lemma PayloadRoundTrips(identifier: string)
    ensures Payload(identifier).Ok? <==> IsAscii(identifier) && |identifier| < MAX_IDENTIFIER_BYTES
    ensures Payload(identifier).Ok? ==>
            && var found := Recover(Payload(identifier).value[|EXIF_HEADER|..]);
            && found.Some? && found.value.make == MAKE[..5] && found.value.model == MODEL[..16]
            && (found.value.identifier == Some(Ascii(identifier)) <==> SurvivesReading(identifier))
  {
    hide Tiff, TaggedValue, RecoverIdentifier, MakerNote, U32, FromU32;
    if Payload(identifier).Ok? {
      var bytes := Ascii(identifier);
      var data := Tiff(bytes + [0]);
      assert (EXIF_HEADER + data)[|EXIF_HEADER|..] == data;
      ReadsEverything(bytes + [0]);
      IdentifierText(bytes);
      TiffStart(bytes + [0]);
      U32RoundTrips(IFD0_OFFSET);
      U32RoundTrips(EXIF_IFD_OFFSET);
      AsciiZeros(identifier);
    }
  }

  /** The shortest identifier a reader loses although the writer accepts it. */
  lemma ShortIdentifiersAreLost()
    ensures Payload("abc").Ok?
    ensures var found := Recover(Payload("abc").value[|EXIF_HEADER|..]);
      found.Some? && found.value.identifier != Some(Ascii("abc"))
  {
    hide Payload, Recover;
    PayloadRoundTrips("abc");
  }

  const SYNTHETIC_PREFIX := "synthetic-"

  /** The identifiers the command line admits: the prefix, then 8 to 80 lower-case letters, digits and hyphens. */
  predicate IsSynthetic(identifier: string) {
    && |SYNTHETIC_PREFIX| + 8 <= |identifier| <= |SYNTHETIC_PREFIX| + 80
    && identifier[..|SYNTHETIC_PREFIX|] == SYNTHETIC_PREFIX
    && forall i :: |SYNTHETIC_PREFIX| <= i < |identifier| ==>
         'a' <= identifier[i] <= 'z' || '0' <= identifier[i] <= '9' || identifier[i] == '-'
  }

  /** Every identifier the command line admits is written and comes back. */
  lemma AdmittedIdentifiersSurvive(identifier: string)
    requires IsSynthetic(identifier)
    ensures Payload(identifier).Ok?
    ensures Recover(Payload(identifier).value[|EXIF_HEADER|..])
         == Some(Recovered(MAKE[..5], MODEL[..16], Some(Ascii(identifier))))
  {
    hide Payload, Recover;
    forall i | 0 <= i < |identifier| ensures identifier[i] as int < 128 {
      if i < |SYNTHETIC_PREFIX| {
        assert identifier[i] == identifier[..|SYNTHETIC_PREFIX|][i];
      }
    }
    assert IsAscii(identifier);
    PayloadRoundTrips(identifier);
  }

  lemma TiffStart(identifier: seq<Byte>)
    requires |identifier| <= MAX_IDENTIFIER_BYTES
    ensures Slice(Tiff(identifier), 0, 4) == Some(TIFF_MAGIC)
    ensures Slice(Tiff(identifier), 4, 4) == Some(U32(IFD0_OFFSET))
  {
    hide Ifd0, ExifIfd, MakerNote, U32, Tiff;
    TiffSections(identifier);
    var header := TIFF_MAGIC + U32(IFD0_OFFSET);
    SectionSlice(Tiff(identifier), 0, header, 0, 4);
    SectionSlice(Tiff(identifier), 0, header, 4, 4);
    assert header[0..4] == TIFF_MAGIC && header[4..8] == U32(IFD0_OFFSET);
  }

  lemma AsciiZeros(identifier: string)
    requires IsAscii(identifier)
    ensures AllZero(Ascii(identifier)) <==> forall i :: 0 <= i < |identifier| ==> identifier[i] == '\0'
  {
    assert forall i :: 0 <= i < |identifier| ==> Ascii(identifier)[i] == identifier[i] as int;
  }

  // ---------------------------------------------------------------- layout

  datatype Range = Range(start: nat, length: nat)

  /** The bytes of a directory: its count, its entries and the offset of the next one. */
  function DirectoryRange(data: seq<Byte>, directory: nat): Option<Range> {
    var count := Slice(data, directory, 2);
    if count.None? then None else Some(Range(directory, 2 + 12 * FromU16(count.value) + 4))
  }

  function ValueRange(field: Option<Field>): Option<Range> {
    if field.None? || |field.value.value| != 4 then None
    else Some(Range(FromU32(field.value.value), TypeSize(field.value.kind) * field.value.count))
  }

  /** Everything the structure of a payload refers to by offset, as a reader finds it. */
  function ReferencedRanges(data: seq<Byte>): seq<Option<Range>> {
    [DirectoryRange(data, IFD0_OFFSET),
     ValueRange(Lookup(data, IFD0_OFFSET, MAKE_TAG)),
     ValueRange(Lookup(data, IFD0_OFFSET, MODEL_TAG)),
     DirectoryRange(data, EXIF_IFD_OFFSET),
     ValueRange(Lookup(data, EXIF_IFD_OFFSET, MAKER_NOTE_TAG))]
  }

  ghost predicate SoundLayout(ranges: seq<Option<Range>>, size: nat) {
    && (forall i :: 0 <= i < |ranges| ==>
          ranges[i].Some? && ranges[i].value.start % 2 == 0 && ranges[i].value.start + ranges[i].value.length <= size)
    && (forall i, j :: 0 <= i < j < |ranges| ==>
          ranges[i].value.start + ranges[i].value.length <= ranges[j].value.start)
  }

  /** All referenced ranges are in bounds, start on an even offset and do not overlap; so does the
      identifier inside the maker note. */
  lemma LayoutIsSound(identifier: seq<Byte>)
    requires |identifier| <= MAX_IDENTIFIER_BYTES
    ensures SoundLayout(ReferencedRanges(Tiff(identifier)), |Tiff(identifier)|)
    ensures var note := MakerNote(identifier);
      SoundLayout([DirectoryRange(note, 14), ValueRange(Lookup(note, 14, IDENTIFIER_TAG))], |note|)
  {
    hide Tiff, Lookup, MakerNote, Ifd0, ExifIfd, U32, FromU32, U16, FromU16, Slice;
    var data, note, size := Tiff(identifier), MakerNote(identifier), 32 + |identifier|;
    ReadsIfd0(identifier);
    ReadsExifIfd(identifier);
    ReadsMakerNote(identifier);
    TiffSections(identifier);
    Ifd0Entries();
    ExifIfdEntry(size);
    MakerNoteParts(identifier);
    SectionSlice(data, IFD0_OFFSET, Ifd0(), 0, 2);
    SectionSlice(data, EXIF_IFD_OFFSET, ExifIfd(size), 0, 2);
    assert note[0..|note|] == note;
    SectionSlice(note, 0, note, 14, 2);
    U16RoundTrips(3);
    U16RoundTrips(1);
    U32RoundTrips(MAKE_OFFSET);
    U32RoundTrips(MODEL_OFFSET);
    U32RoundTrips(MAKER_NOTE_OFFSET);
    U32RoundTrips(IDENTIFIER_OFFSET);
  }

  // ---------------------------------------------------------------- the JPEG stream

  const SOI: seq<Byte> := [0xFF, 0xD8]
  const APP1: seq<Byte> := [0xFF, 0xE1]

  /** A buffered input: a read returns what is asked for, or all that is left. */
  class InputFile {
    var remaining: seq<Byte>

    constructor (content: seq<Byte>)
      ensures remaining == content
    {
      remaining := content;
    }

    method Read(length: nat) returns (bytes: seq<Byte>)
      modifies this
      ensures bytes + remaining == old(remaining)
      ensures |bytes| == if length <= |old(remaining)| then length else |old(remaining)|
    {
      var n := if length <= |remaining| then length else |remaining|;
      bytes := remaining[..n];
      remaining := remaining[n..];
    }
  }

  /** The stream with its first segment after the start marker taken out, if that is an APP1. */
  function WithoutApp1(jpeg: seq<Byte>): seq<Byte> {
    if |jpeg| < 6 || jpeg[..2] != SOI || jpeg[2..4] != APP1 || 4 + FromU16(jpeg[4..6]) > |jpeg| then jpeg
    else jpeg[..2] + jpeg[4 + FromU16(jpeg[4..6])..]
  }

  function Injected(identifier: string, jpeg: seq<Byte>): (r: Result<seq<Byte>, MetadataError>) {
    if |jpeg| < 2 || jpeg[..2] != SOI then Err(NotAJpeg)
    else
      match Payload(identifier)
      case Err(error) => Err(error)
      case Ok(payload) => Ok(SOI + APP1 + U16(|payload| + 2) + payload + jpeg[2..])
  }

  /** Taking the segment out again restores the input, and the segment holds the payload. */
  lemma RemovingTheSegmentRestoresTheInput(identifier: string, jpeg: seq<Byte>)
    requires Injected(identifier, jpeg).Ok?
    ensures WithoutApp1(Injected(identifier, jpeg).value) == jpeg
    ensures var payload := Payload(identifier).value;
      Injected(identifier, jpeg).value[6..6 + |payload|] == payload
  {
    hide Payload, U16, FromU16;
    var payload := Payload(identifier).value;
    PayloadFits(identifier);
    var length := U16(|payload| + 2);
    U16RoundTrips(|payload| + 2);
    var output := Injected(identifier, jpeg).value;
    assert output[..2] == SOI && output[2..4] == APP1 && output[4..6] == length;
    assert output[6 + |payload|..] == jpeg[2..];
    assert jpeg == jpeg[..2] + jpeg[2..];
  }

  lemma PayloadFits(identifier: string)
    requires Payload(identifier).Ok?
    ensures |Payload(identifier).value| + 2 <= 65_535
  {
  }

  /** `inject`. */
  method Inject(identifier: string, source: InputFile, destination: OutputStream) returns (error: Option<MetadataError>)
    modifies source, destination
    ensures match Injected(identifier, old(source.remaining))
            case Err(failure) => error == Some(failure) && destination.written == old(destination.written)
            case Ok(output) =>
              error == None && destination.written == old(destination.written) + output && source.remaining == []
  {
    hide Payload, U16;
    ghost var input, before := source.remaining, destination.written;
    var marker := source.Read(2);
    assert |input| >= 2 ==> input[..2] == marker && input[2..] == source.remaining;
    if marker != SOI {
      return Some(NotAJpeg);
    }
    var payload := Payload(identifier);
    if payload.Err? {
      return Some(payload.error);
    }
    PayloadFits(identifier);
    destination.Write(SOI + APP1);
    destination.Write(U16(|payload.value| + 2));
    destination.Write(payload.value);
    ghost var header := SOI + APP1 + U16(|payload.value| + 2) + payload.value;
    assert destination.written == before + header;
    ghost var copied: seq<Byte> := [];
    var chunk := source.Read(COPY_BUFFER_BYTES);
    while chunk != []
      invariant destination.written == before + header + copied
      invariant copied + (chunk + source.remaining) == input[2..]
      invariant chunk == [] ==> source.remaining == []
      decreases |chunk| + |source.remaining|
    {
      destination.Write(chunk);
      ghost var rest := source.remaining;
      Associative(copied, chunk, rest);
      Associative(before + header, copied, chunk);
      copied := copied + chunk;
      chunk := source.Read(COPY_BUFFER_BYTES);
    }
    assert copied == input[2..];
    Associative(before, header, copied);
    return None;
  }
}

/** The media recipes of scripts/materialize-fixture.py: PNG, padded PNG and ISO BMFF writers, with
    readers to read them back. CRC-32, zlib, SHA-256 and UTF-8 are library functions. */
module FixtureMedia {
  import opened BigEndian
  import opened Bytes
  import opened Json
  import opened Sequences
  import opened Streams
  import opened Wrappers

  datatype Failure = Fixture | FileSystem

  datatype Library = Library(
    crc32: seq<Byte> -> nat,
    compress: seq<Byte> -> seq<Byte>,
    decompress: seq<Byte> -> Option<seq<Byte>>,
    sha256: seq<Byte> -> seq<Byte>,
    utf8: string -> seq<Byte>)

  const MAX_ROWS_BYTES := 64 * (1 + 64 * 3)

  /** Decompression undoes compression, and the sizes are what the writers rely on. */
  ghost predicate Sound(library: Library) {
    && (forall data :: library.decompress(library.compress(data)) == Some(data))
    && (forall data :: |data| <= MAX_ROWS_BYTES ==> |library.compress(data)| < 1_000_000)
    && (forall data :: |library.sha256(data)| == 32)
  }

  // ---------------------------------------------------------------- repetition

  function Repeat<T>(s: seq<T>, count: nat): (r: seq<T>)
    ensures |r| == |s| * count
  {
    if count == 0 then [] else s + Repeat(s, count - 1)
  }

  lemma {:induction false} RepeatAdds<T>(s: seq<T>, a: nat, b: nat)
    ensures Repeat(s, a) + Repeat(s, b) == Repeat(s, a + b)
    decreases a
  {
    if a > 0 {
      RepeatAdds(s, a - 1, b);
      Associative(s, Repeat(s, a - 1), Repeat(s, b));
    }
  }

  // ---------------------------------------------------------------- PNG

  const SIGNATURE: seq<Byte> := [0x89, 80, 78, 71, 13, 10, 26, 10]
  const IHDR: seq<Byte> := [73, 72, 68, 82]
  const IDAT: seq<Byte> := [73, 68, 65, 84]
  const IEND: seq<Byte> := [73, 69, 78, 68]
  const RGB_FORMAT: seq<Byte> := [8, 2, 0, 0, 0]

  function Checksum(library: Library, bytes: seq<Byte>): nat {
    library.crc32(bytes) % 0x1_0000_0000
  }

  /** `_chunk`. */
  function Chunk(library: Library, kind: seq<Byte>, data: seq<Byte>): (bytes: seq<Byte>)
    requires |kind| == 4 && |data| < 0x1_0000_0000
    ensures |bytes| == |data| + 12
  {
    U32(|data|) + kind + data + U32(Checksum(library, kind + data))
  }

  datatype PngSpec = PngSpec(width: nat, height: nat, pixel: seq<Byte>)

  predicate ValidSpec(spec: PngSpec) {
    1 <= spec.width <= 64 && 1 <= spec.height <= 64 && |spec.pixel| == 3
  }

  function Dimension(item: map<string, Json>, key: string): Option<nat> {
    match AsInt(Get(item, key))
    case None => None
    case Some(number) => if 1 <= number <= 64 then Some(number) else None
  }

  function ByteOf(json: Json): Option<Byte> {
    match AsInt(json)
    case None => None
    case Some(number) => if 0 <= number <= 255 then Some(number) else None
  }

  /** The checks at the head of `_synthetic_png`. */
  function ParseSpec(item: map<string, Json>): (r: Option<PngSpec>)
    ensures r.Some? ==> ValidSpec(r.value)
  {
    var width, height, rgb := Dimension(item, "width"), Dimension(item, "height"), Get(item, "rgb");
    if width.None? || height.None? || !rgb.Arr? || |rgb.items| != 3 then None
    else
      var red, green, blue := ByteOf(rgb.items[0]), ByteOf(rgb.items[1]), ByteOf(rgb.items[2]);
      if red.None? || green.None? || blue.None? then None
      else Some(PngSpec(width.value, height.value, [red.value, green.value, blue.value]))
  }

  function Row(spec: PngSpec): seq<Byte> {
    [0] + Repeat(spec.pixel, spec.width)
  }

  function Rows(spec: PngSpec): (rows: seq<Byte>)
    requires ValidSpec(spec)
    ensures |rows| == spec.height * (1 + 3 * spec.width) <= MAX_ROWS_BYTES
  {
    RowsFit(spec.width, spec.height);
    Repeat(Row(spec), spec.height)
  }

  lemma RowsFit(width: nat, height: nat)
    requires width <= 64 && height <= 64
    ensures height * (1 + 3 * width) <= MAX_ROWS_BYTES
  {
    assert height * (1 + 3 * width) <= 64 * (1 + 3 * width);
  }

  function Header(spec: PngSpec): (bytes: seq<Byte>)
    requires ValidSpec(spec)
    ensures |bytes| == 13
  {
    U32(spec.width) + U32(spec.height) + RGB_FORMAT
  }

  /** `_synthetic_png` after its checks. */
  function Png(library: Library, spec: PngSpec): (bytes: seq<Byte>)
    requires ValidSpec(spec) && |library.compress(Rows(spec))| < 0x1_0000_0000
    ensures |bytes| == |library.compress(Rows(spec))| + 57
  {
    SIGNATURE
    + (Chunk(library, IHDR, Header(spec))
       + (Chunk(library, IDAT, library.compress(Rows(spec)))
          + Chunk(library, IEND, [])))
  }

  datatype Parsed = Parsed(kind: seq<Byte>, data: seq<Byte>, rest: seq<Byte>)

  function ReadChunk(library: Library, bytes: seq<Byte>): Option<Parsed> {
    if |bytes| < 12 then None
    else
      var size := FromU32(bytes[..4]);
      if |bytes| < size + 12 then None
      else
        var kind, data, crc := bytes[4..8], bytes[8..8 + size], bytes[8 + size..12 + size];
        if FromU32(crc) == Checksum(library, kind + data) then Some(Parsed(kind, data, bytes[12 + size..])) else None
  }

  datatype Image = Image(width: nat, height: nat, pixels: seq<Byte>)

  /** The pixels of rows that use no filter. */
  function Unfilter(raw: seq<Byte>, width: nat, height: nat): Option<seq<Byte>>
    decreases height
  {
    if height == 0 then (if raw == [] then Some([]) else None)
    else if |raw| < 1 + 3 * width || raw[0] != 0 then None
    else
      match Unfilter(raw[1 + 3 * width..], width, height - 1)
      case None => None
      case Some(rest) => Some(raw[1..1 + 3 * width] + rest)
  }

  /** A reader of 8-bit RGB images with one data chunk; what follows the end chunk is ignored. */
  function DecodePng(library: Library, bytes: seq<Byte>): Option<Image> {
    if |bytes| < 8 || bytes[..8] != SIGNATURE then None
    else
      match ReadChunk(library, bytes[8..])
      case None => None
      case Some(header) =>
        if header.kind != IHDR || |header.data| != 13 || header.data[8..] != RGB_FORMAT then None
        else
          match ReadChunk(library, header.rest)
          case None => None
          case Some(body) =>
            match ReadChunk(library, body.rest)
            case None => None
            case Some(end) =>
              if body.kind != IDAT || end.kind != IEND then None
              else DecodeRows(library, FromU32(header.data[..4]), FromU32(header.data[4..8]), body.data)
  }

  function DecodeRows(library: Library, width: nat, height: nat, data: seq<Byte>): Option<Image> {
    match library.decompress(data)
    case None => None
    case Some(raw) =>
      match Unfilter(raw, width, height)
      case None => None
      case Some(pixels) => Some(Image(width, height, pixels))
  }

  lemma ChunkParts(library: Library, kind: seq<Byte>, data: seq<Byte>, rest: seq<Byte>)
    requires |kind| == 4 && |data| < 0x1_0000_0000
    ensures var bytes := Chunk(library, kind, data) + rest;
      && bytes[..4] == U32(|data|) && bytes[4..8] == kind && bytes[8..8 + |data|] == data
      && bytes[8 + |data|..12 + |data|] == U32(Checksum(library, kind + data)) && bytes[12 + |data|..] == rest
  {
    hide U32, Checksum;
  }

  lemma ChunkRoundTrips(library: Library, kind: seq<Byte>, data: seq<Byte>, rest: seq<Byte>)
    requires |kind| == 4 && |data| < 0x1_0000_0000
    ensures ReadChunk(library, Chunk(library, kind, data) + rest) == Some(Parsed(kind, data, rest))
  {
    ChunkParts(library, kind, data, rest);
    U32RoundTrips(|data|);
    U32RoundTrips(Checksum(library, kind + data));
    hide U32, FromU32, Checksum, Chunk;
  }

  lemma {:induction false} UnfilterRows(spec: PngSpec, height: nat)
    requires |spec.pixel| == 3
    ensures Unfilter(Repeat(Row(spec), height), spec.width, height) == Some(Repeat(spec.pixel, spec.width * height))
    decreases height
  {
    if height > 0 {
      var raw, row := Repeat(Row(spec), height), Row(spec);
      UnfilterRows(spec, height - 1);
      assert raw == row + Repeat(row, height - 1);
      assert raw[1 + 3 * spec.width..] == Repeat(row, height - 1);
      assert raw[1..1 + 3 * spec.width] == Repeat(spec.pixel, spec.width);
      RepeatAdds(spec.pixel, spec.width, spec.width * (height - 1));
      Multiply(spec.width, height);
    }
  }

  lemma Multiply(width: nat, height: nat)
    requires height > 0
    ensures width + width * (height - 1) == width * height
  {
  }

  lemma HeaderReads(spec: PngSpec)
    requires ValidSpec(spec)
    ensures var header := Header(spec);
      FromU32(header[..4]) == spec.width && FromU32(header[4..8]) == spec.height && header[8..] == RGB_FORMAT
  {
    U32RoundTrips(spec.width);
    U32RoundTrips(spec.height);
    hide U32, FromU32;
    var header := Header(spec);
    assert header[..4] == U32(spec.width) && header[4..8] == U32(spec.height);
  }

  lemma PngWithRest(library: Library, spec: PngSpec, padding: seq<Byte>)
    requires ValidSpec(spec) && |library.compress(Rows(spec))| < 0x1_0000_0000
    ensures Png(library, spec) + padding
         == SIGNATURE
            + (Chunk(library, IHDR, Header(spec))
               + (Chunk(library, IDAT, library.compress(Rows(spec)))
                  + (Chunk(library, IEND, []) + padding)))
  {
    hide Chunk, Header, Rows;
    var a, b, c := Chunk(library, IHDR, Header(spec)), Chunk(library, IDAT, library.compress(Rows(spec))), Chunk(library, IEND, []);
    Associative(b, c, padding);
    Associative(a, b + c, padding);
    Associative(SIGNATURE, a + (b + c), padding);
  }

  lemma DecodeStages(library: Library, whole: seq<Byte>, header: Parsed, body: Parsed, end: Parsed)
    requires |whole| >= 8 && whole[..8] == SIGNATURE && ReadChunk(library, whole[8..]) == Some(header)
    requires header.kind == IHDR && |header.data| == 13 && header.data[8..] == RGB_FORMAT
    requires ReadChunk(library, header.rest) == Some(body) && body.kind == IDAT
    requires ReadChunk(library, body.rest) == Some(end) && end.kind == IEND
    ensures DecodePng(library, whole)
         == DecodeRows(library, FromU32(header.data[..4]), FromU32(header.data[4..8]), body.data)
  {
    hide ReadChunk, FromU32, DecodeRows;
  }

  lemma RowsDecode(library: Library, spec: PngSpec)
    requires Sound(library) && ValidSpec(spec)
    ensures DecodeRows(library, spec.width, spec.height, library.compress(Rows(spec)))
         == Some(Image(spec.width, spec.height, Repeat(spec.pixel, spec.width * spec.height)))
  {
    UnfilterRows(spec, spec.height);
    assert library.decompress(library.compress(Rows(spec))) == Some(Rows(spec));
    hide Unfilter, Repeat, Row;
  }

  /** The generated image reads back with the requested size and every pixel in the requested color,
      also when arbitrary bytes follow it. */
  lemma PngRoundTrips(library: Library, spec: PngSpec, padding: seq<Byte>)
    requires Sound(library) && ValidSpec(spec)
    ensures |library.compress(Rows(spec))| < 1_000_000
    ensures DecodePng(library, Png(library, spec) + padding)
         == Some(Image(spec.width, spec.height, Repeat(spec.pixel, spec.width * spec.height)))
  {
    assert |library.compress(Rows(spec))| < 1_000_000;
    hide Chunk, Header, ReadChunk, FromU32, Repeat, Row, Rows, DecodeRows, DecodePng, Png, ValidSpec;
    var data := library.compress(Rows(spec));
    var c := Chunk(library, IEND, []) + padding;
    var b := Chunk(library, IDAT, data) + c;
    var a := Chunk(library, IHDR, Header(spec)) + b;
    PngWithRest(library, spec, padding);
    ChunkRoundTrips(library, IHDR, Header(spec), b);
    ChunkRoundTrips(library, IDAT, data, c);
    ChunkRoundTrips(library, IEND, [], padding);
    HeaderReads(spec);
    RowsDecode(library, spec);
    var whole := SIGNATURE + a;
    assert whole[..8] == SIGNATURE && whole[8..] == a;
    DecodeStages(library, whole, Parsed(IHDR, Header(spec), b), Parsed(IDAT, data, c), Parsed(IEND, [], padding));
  }

  // ---------------------------------------------------------------- padded PNG

  const MIN_PADDED_BYTES := 1_048_576
  const MAX_PADDED_BYTES := 16_777_216

  /** The padding written block by block. */
  function Padding(block: seq<Byte>, count: nat): (r: seq<Byte>)
    requires |block| > 0
    ensures |r| == count
    decreases count
  {
    if count <= |block| then block[..count] else block + Padding(block, count - |block|)
  }

  /** The padding is the block over and over. */
  lemma {:induction false} PaddingIsPeriodic(block: seq<Byte>, count: nat, k: nat)
    requires |block| > 0 && k < count
    ensures Padding(block, count)[k] == block[k % |block|]
    decreases count
  {
    if count > |block| {
      if k >= |block| {
        PaddingIsPeriodic(block, count - |block|, k - |block|);
        SubtractOnce(k, |block|);
      } else {
        SmallRemainder(k, |block|);
      }
    } else {
      SmallRemainder(k, |block|);
    }
  }

  lemma SmallRemainder(k: nat, size: nat)
    requires k < size
    ensures k % size == k
  {
  }

  lemma SubtractOnce(k: nat, size: nat)
    requires 0 < size <= k
    ensures (k - size) % size == k % size
  {
    var q, r := k / size, k % size;
    assert k == size * q + r;
    assert k - size == size * (q - 1) + r;
    RemainderIsUnique(k - size, size, q - 1, r);
  }

  lemma ProductGrows(size: nat, d: nat)
    requires d > 0
    ensures size * d >= size
  {
  }

  lemma RemainderIsUnique(k: int, size: nat, q: int, r: nat)
    requires size > 0 && k == size * q + r && r < size
    ensures k % size == r
  {
    var q', r' := k / size, k % size;
    assert k == size * q' + r';
    Distribute(size, q, q');
    if q > q' {
      ProductGrows(size, q - q');
    } else if q < q' {
      Distribute(size, q', q);
      ProductGrows(size, q' - q);
    }
  }

  lemma Distribute(size: nat, a: int, b: int)
    ensures size * a - size * b == size * (a - b)
  {
  }

  predicate ValidMarker(json: Json) {
    json.Str? && IsAscii(json.text) && 1 <= |json.text| <= 64
  }

  function Block(library: Library, seed: string): seq<Byte>
    requires IsAscii(seed)
  {
    Repeat(library.sha256(Ascii(seed)), 2_048)
  }

  function PaddedSize(item: map<string, Json>): Option<nat> {
    match AsInt(Get(item, "bytes"))
    case None => None
    case Some(number) => if MIN_PADDED_BYTES <= number <= MAX_PADDED_BYTES then Some(number) else None
  }

  function SyntheticPng(library: Library, item: map<string, Json>): Result<seq<Byte>, Failure> {
    var spec := ParseSpec(item);
    if spec.None? || |library.compress(Rows(spec.value))| >= 0x1_0000_0000 then Err(Fixture)
    else Ok(Png(library, spec.value))
  }

  /** The file `_write_padded_png` leaves. */
  function PaddedPng(library: Library, item: map<string, Json>): (r: Result<seq<Byte>, Failure>)
    ensures r.Ok? ==> PaddedSize(item).Some? && |r.value| == PaddedSize(item).value
  {
    var size, seed, prefix := PaddedSize(item), Get(item, "seed"), SyntheticPng(library, item);
    if size.None? || !ValidMarker(seed) || prefix.Err? || |prefix.value| >= size.value
       || |Block(library, seed.text)| == 0 then Err(Fixture)
    else Ok(prefix.value + Padding(Block(library, seed.text), size.value - |prefix.value|))
  }

  /** Every well-formed item gives a file of exactly the requested size that shows the same image as
      the unpadded recipe, and nothing else is refused. */
  lemma PaddedPngShowsTheImage(library: Library, item: map<string, Json>)
    requires Sound(library)
    ensures PaddedPng(library, item).Ok? <==>
      PaddedSize(item).Some? && ValidMarker(Get(item, "seed")) && ParseSpec(item).Some?
    ensures PaddedPng(library, item).Ok? ==>
      var spec := ParseSpec(item).value;
      && |PaddedPng(library, item).value| == PaddedSize(item).value
      && DecodePng(library, PaddedPng(library, item).value)
         == Some(Image(spec.width, spec.height, Repeat(spec.pixel, spec.width * spec.height)))
  {
    hide Png, DecodePng, Rows, Repeat, IsAscii, Padding;
    var spec, seed, size := ParseSpec(item), Get(item, "seed"), PaddedSize(item);
    if spec.Some? {
      assert |library.compress(Rows(spec.value))| < 1_000_000;
      if ValidMarker(seed) && size.Some? {
        assert |Block(library, seed.text)| == 65_536;
        PngRoundTrips(library, spec.value, Padding(Block(library, seed.text), size.value - |Png(library, spec.value)|));
      }
    }
  }

  /** `_write_padded_png`: all checks come before the first byte is written. */
  method WritePaddedPng(library: Library, item: map<string, Json>, destination: OutputStream) returns (failure: Option<Failure>)
    modifies destination
    ensures match PaddedPng(library, item)
      case Ok(bytes) => failure == None && destination.written == old(destination.written) + bytes
      case Err(error) => failure == Some(error) && destination.written == old(destination.written)
  {
    hide SyntheticPng, Block, IsAscii;
    var size, seed := PaddedSize(item), Get(item, "seed");
    if size.None? || !ValidMarker(seed) {
      return Some(Fixture);
    }
    var prefix := SyntheticPng(library, item);
    if prefix.Err? || |prefix.value| >= size.value {
      return Some(Fixture);
    }
    var block := Block(library, seed.text);
    if |block| == 0 {
      return Some(Fixture);
    }
    var remaining := size.value - |prefix.value|;
    ghost var total := Padding(block, remaining);
    destination.Write(prefix.value);
    ghost var start := destination.written;
    assert start + total == old(destination.written) + (prefix.value + total);
    while remaining > 0
      invariant 0 <= remaining
      invariant destination.written + Padding(block, remaining) == start + total
    {
      var chunk := block[..(if remaining < |block| then remaining else |block|)];
      Associative(destination.written, chunk, Padding(block, remaining - |chunk|));
      PaddingStep(block, remaining);
      destination.Write(chunk);
      remaining := remaining - |chunk|;
    }
    assert Padding(block, 0) == [];
    return None;
  }

  lemma PaddingStep(block: seq<Byte>, count: nat)
    requires |block| > 0
    ensures var chunk := block[..(if count < |block| then count else |block|)];
      Padding(block, count) == chunk + Padding(block, count - |chunk|)
  {
    if count <= |block| {
      assert Padding(block, 0) == [];
      assert block[..count] + [] == block[..count];
    } else {
      assert block[..|block|] == block;
    }
  }

  // ---------------------------------------------------------------- ISO BMFF

  const FTYP: seq<Byte> := [102, 116, 121, 112]
  const FREE: seq<Byte> := [102, 114, 101, 101]
  const QUICKTIME: seq<Byte> := [113, 116, 32, 32]
  const DEFAULT_MARKER := "synthetic-motion"

  datatype Box = Box(kind: seq<Byte>, payload: seq<Byte>)

  function WriteBox(kind: seq<Byte>, payload: seq<Byte>): (bytes: seq<Byte>)
    requires |kind| == 4 && |payload| < 0x1000
    ensures |bytes| == |payload| + 8
  {
    U32(|payload| + 8) + kind + payload
  }

  function FileType(): (payload: seq<Byte>)
    ensures |payload| == 12
  {
    QUICKTIME + U32(0) + QUICKTIME
  }

  function Marker(item: map<string, Json>): Json {
    if "marker" in item then item["marker"] else Str(DEFAULT_MARKER)
  }

  /** `_synthetic_isobmff`. */
  function IsoBmff(item: map<string, Json>): Result<seq<Byte>, Failure> {
    var marker := Marker(item);
    if !ValidMarker(marker) then Err(Fixture)
    else Ok(WriteBox(FTYP, FileType()) + WriteBox(FREE, Ascii(marker.text)))
  }

  /** The boxes of a file, in which every box gives its own size. */
  function ReadBoxes(bytes: seq<Byte>): Option<seq<Box>>
    decreases |bytes|
  {
    if bytes == [] then Some([])
    else if |bytes| < 8 then None
    else
      var size := FromU32(bytes[..4]);
      if size < 8 || size > |bytes| then None
      else
        match ReadBoxes(bytes[size..])
        case None => None
        case Some(rest) => Some([Box(bytes[4..8], bytes[8..size])] + rest)
  }

  lemma BoxReads(kind: seq<Byte>, payload: seq<Byte>, rest: seq<Byte>)
    requires |kind| == 4 && |payload| < 0x1000
    ensures ReadBoxes(WriteBox(kind, payload) + rest)
         == match ReadBoxes(rest) case None => None case Some(boxes) => Some([Box(kind, payload)] + boxes)
  {
    var bytes, size := WriteBox(kind, payload) + rest, |payload| + 8;
    U32RoundTrips(size);
    hide U32, FromU32;
    assert bytes[..4] == U32(size) && bytes[4..8] == kind && bytes[8..size] == payload && bytes[size..] == rest;
  }

  /** The file is refused exactly when the marker is not bounded ASCII, and otherwise reads back as a
      QuickTime file type box and a free box that holds the marker. */
  lemma IsoBmffRoundTrips(item: map<string, Json>)
    ensures IsoBmff(item).Ok? <==> ValidMarker(Marker(item))
    ensures IsoBmff(item).Ok? ==>
      ReadBoxes(IsoBmff(item).value) == Some([Box(FTYP, FileType()), Box(FREE, Ascii(Marker(item).text))])
  {
    hide ReadBoxes, IsAscii, U32;
    if ValidMarker(Marker(item)) {
      var text := Ascii(Marker(item).text);
      BoxReads(FTYP, FileType(), WriteBox(FREE, text));
      BoxReads(FREE, text, []);
      NoBoxes();
      assert WriteBox(FREE, text) + [] == WriteBox(FREE, text);
      assert [Box(FTYP, FileType())] + ([Box(FREE, text)] + []) == [Box(FTYP, FileType()), Box(FREE, text)];
    }
  }

  lemma NoBoxes()
    ensures ReadBoxes([]) == Some([])
  {
  }
}

/** What a fixture manifest and its items mean, field by field: which ones scripts/materialize-fixture.py
    accepts, and what it makes of them. */
module FixtureMeaning {
  import opened BigEndian
  import opened Bytes
  import opened FixtureArchives
  import opened FixtureMedia
  import opened Json
  import opened Ordering
  import opened PosixPath
  import opened Sequences
  import opened Wrappers

  // ---------------------------------------------------------------- paths

  /** A non-empty relative path without a backslash, a zero or a parent reference. */
  predicate IsPath(raw: Json) {
    && raw.Str? && raw.text != "" && raw.text[0] != '/'
    && '\\' !in raw.text && '\0' !in raw.text
    && ".." !in Segments(raw.text, "")
  }

  /** The path without its empty and dot segments. */
  function PathOf(raw: Json): string
    requires IsPath(raw)
  {
    AsPosix(WithoutDots(Segments(raw.text, "")))
  }

  lemma {:induction false} WithoutDotsMeans(segments: seq<string>)
    ensures forall name :: name in WithoutDots(segments) <==> name in segments && name !in {"", "."}
  {
    if |segments| > 0 {
      WithoutDotsMeans(segments[1..]);
      assert segments == [segments[0]] + segments[1..];
    }
  }

  lemma PathsExactly(raw: Json)
    ensures PortablePath(raw) == if IsPath(raw) then Ok(PathOf(raw)) else Err(Fixture)
  {
    if raw.Str? && raw.text != "" {
      var segments := Segments(raw.text, "");
      SegmentsExactly(raw.text, segments);
      PartsMean(raw.text, segments);
      WithoutDotsMeans(segments);
      hide Segments, WithoutDots, Parts, AreSegments, AsPosix;
      RootIsSlash(raw.text);
      assert raw.text[0] != '/' ==> [] + WithoutDots(segments) == WithoutDots(segments);
    }
  }

  lemma RootIsSlash(text: string)
    requires text != ""
    ensures IsAbsolute(text) <==> text[0] == '/'
  {
  }

  lemma NamedSegments(raw: Json)
    requires IsPath(raw)
    ensures AreNamed(WithoutDots(Segments(raw.text, "")))
    ensures Parts(PathOf(raw)) == WithoutDots(Segments(raw.text, ""))
  {
    var segments := Segments(raw.text, "");
    SegmentsHaveNoSlash(raw.text, "");
    WithoutDotsMeans(segments);
    hide Segments, WithoutDots, Parts;
    var named := WithoutDots(segments);
    assert forall i :: 0 <= i < |named| ==> named[i] in named;
    AsPosixRoundTrips(named);
  }

  /** The POSIX form of a path has as many parts as it has slashes, and one more. */
  lemma OnePart(raw: Json)
    requires IsPath(raw)
    ensures |Parts(PathOf(raw))| == 1 <==> '/' !in PathOf(raw) && PathOf(raw) != "."
    ensures |Parts(PathOf(raw))| == 0 <==> PathOf(raw) == "."
    ensures |Parts(PathOf(raw))| == 1 ==> Parts(PathOf(raw)) == [PathOf(raw)]
  {
    var named := WithoutDots(Segments(raw.text, ""));
    NamedSegments(raw);
    AsPosixRoundTrips(named);
    JoinedSlash(named);
    hide Segments, WithoutDots, Parts;
    if |named| > 0 {
      assert named[0] != ".";
      assert PathOf(raw) == Joined(named);
    }
  }

  /** A name of at least one character, a dot, and the three letters in any case. */
  predicate IsZipName(name: string) {
    var n := |name|;
    && n >= 5 && name[n - 4] == '.'
    && name[n - 3] in {'z', 'Z'} && name[n - 2] in {'i', 'I'} && name[n - 1] in {'p', 'P'}
  }

  lemma ZipSuffixExactly(name: string)
    ensures IsZipSuffix(Suffix(name)) <==> IsZipName(name)
  {
    var n := |name|;
    if n >= 4 && name[n - 4] == '.' && '.' !in name[n - 3..] {
      var stem, rest := name[..n - 4], name[n - 3..];
      assert name == stem + "." + rest;
      SuffixMeans(stem, rest);
    } else if IsZipSuffix(Suffix(name)) {
      SuffixIsTail(name);
    }
  }

  lemma SuffixIsTail(name: string)
    requires |Suffix(name)| == 4 && '.' !in Suffix(name)[1..]
    ensures |name| >= 5 && name[|name| - 4] == '.' && '.' !in name[|name| - 3..]
  {
    var suffix := Suffix(name);
    var dot := LastDot(name);
    LastDotIsDot(name);
    assert suffix == name[dot..];
    assert suffix[1..] == name[dot + 1..];
    assert dot == |name| - 4;
  }

  lemma {:induction false} LastDotIsDot(name: string)
    ensures -1 <= LastDot(name) < |name|
    ensures LastDot(name) >= 0 ==> name[LastDot(name)] == '.'
    decreases |name|
  {
    if |name| > 0 && name[|name| - 1] != '.' {
      LastDotIsDot(name[..|name| - 1]);
    }
  }

  lemma RootZipExactly(raw: Json)
    requires IsPath(raw)
    ensures IsRootZip(PathOf(raw)) <==> '/' !in PathOf(raw) && IsZipName(PathOf(raw))
  {
    OnePart(raw);
    ZipSuffixExactly(PathOf(raw));
    ZipSuffixExactly("");
    hide PathOf, Parts, IsZipSuffix, Suffix;
  }

  lemma {:induction false} ListsOfPathsExactly(raws: seq<Json>)
    ensures PortablePaths(raws).Ok? <==> forall i :: 0 <= i < |raws| ==> IsPath(raws[i])
    ensures PortablePaths(raws).Err? ==> PortablePaths(raws) == Err(Fixture)
    ensures PortablePaths(raws).Ok? ==>
      && |PortablePaths(raws).value| == |raws|
      && forall i :: 0 <= i < |raws| ==> IsPath(raws[i]) && PortablePaths(raws).value[i] == PathOf(raws[i])
  {
    hide IsPath, PathOf, PortablePath;
    if |raws| > 0 {
      PathsExactly(raws[0]);
      ListsOfPathsExactly(raws[1..]);
    }
  }

  predicate InOrder(paths: seq<string>) {
    forall i, j :: 0 <= i < j < |paths| ==> AtMost(paths[i], paths[j])
  }

  lemma SortedExactly(paths: seq<string>)
    ensures IsSorted(paths) <==> InOrder(paths)
  {
    StringsAreOrdered();
    SortSorts(paths, AtMost);
    SortPermutes(paths, AtMost);
    hide Sort, AtMost;
    if InOrder(paths) {
      assert SortedBy(paths, AtMost);
      SortedIsUnique(paths, Sort(paths, AtMost), AtMost);
    }
  }

  // ---------------------------------------------------------------- recipes

  /** Python's integers, among which a truth value counts as 1 or 0. */
  function Whole(json: Json): int
    requires json.Int? || json.Bool?
  {
    if json.Int? then json.number else if json.truth then 1 else 0
  }

  predicate IsWhole(json: Json, low: int, high: int) {
    (json.Int? || json.Bool?) && low <= Whole(json) <= high
  }

  /** The picture a PNG recipe asks for: 1 to 64 pixels each way, in one colour of three bytes. */
  predicate AsksForPicture(item: map<string, Json>) {
    var rgb := Get(item, "rgb");
    && IsWhole(Get(item, "width"), 1, 64) && IsWhole(Get(item, "height"), 1, 64)
    && rgb.Arr? && |rgb.items| == 3
    && IsWhole(rgb.items[0], 0, 255) && IsWhole(rgb.items[1], 0, 255) && IsWhole(rgb.items[2], 0, 255)
  }

  function Picture(item: map<string, Json>): PngSpec
    requires AsksForPicture(item)
  {
    var rgb := Get(item, "rgb").items;
    PngSpec(Whole(Get(item, "width")), Whole(Get(item, "height")), [Whole(rgb[0]), Whole(rgb[1]), Whole(rgb[2])])
  }

  lemma PicturesAreReadExactly(item: map<string, Json>)
    ensures ParseSpec(item) == if AsksForPicture(item) then Some(Picture(item)) else None
  {
  }

  /** 1 to 64 ASCII characters. */
  predicate IsShortAscii(json: Json) {
    json.Str? && 1 <= |json.text| <= 64 && forall i :: 0 <= i < |json.text| ==> json.text[i] < 128 as char
  }

  predicate AsksForPadding(item: map<string, Json>) {
    AsksForPicture(item) && IsWhole(Get(item, "bytes"), 1_048_576, 16_777_216) && IsShortAscii(Get(item, "seed"))
  }

  /** The bytes of the PNG file: the signature, and header, rows and end in their chunks. */
  lemma PngBytes(library: Library, spec: PngSpec)
    requires ValidSpec(spec) && |library.compress(Rows(spec))| < 0x1_0000_0000
    ensures Png(library, spec) ==
      [0x89, 'P' as int, 'N' as int, 'G' as int, 0x0D, 0x0A, 0x1A, 0x0A]
      + (Chunk(library, ['I' as int, 'H' as int, 'D' as int, 'R' as int],
               [0, 0, 0, spec.width] + [0, 0, 0, spec.height] + [8, 2, 0, 0, 0])
         + (Chunk(library, ['I' as int, 'D' as int, 'A' as int, 'T' as int], library.compress(Rows(spec)))
            + Chunk(library, ['I' as int, 'E' as int, 'N' as int, 'D' as int], [])))
  {
    hide Chunk, Rows;
  }

  /** The number four bytes give, the first byte counting most. */
  function Number(bytes: seq<Byte>): int
    requires |bytes| == 4
  {
    ((bytes[0] as int * 256 + bytes[1]) * 256 + bytes[2]) * 256 + bytes[3]
  }

  lemma NumberBytes(n: nat)
    requires n < 0x1_0000_0000
    ensures Number(U32(n)) == n
  {
    var a, b := n / 0x100, n / 0x1_0000;
    assert n == 0x100 * a + n % 0x100;
    assert a == 0x100 * b + a % 0x100;
  }

  /** A chunk is its data's length, its kind, its data, and the checksum of kind and data. */
  lemma ChunkBytes(library: Library, kind: seq<Byte>, data: seq<Byte>)
    requires |kind| == 4 && |data| < 0x1_0000_0000
    ensures var bytes := Chunk(library, kind, data);
      && |bytes| == |data| + 12
      && Number(bytes[..4]) == |data| && bytes[4..8] == kind && bytes[8..|data| + 8] == data
      && Number(bytes[|data| + 8..]) == library.crc32(kind + data) % 0x1_0000_0000
  {
    NumberBytes(|data|);
    NumberBytes(Checksum(library, kind + data));
    hide U32;
  }

  lemma {:induction false} RepeatIndex<T>(s: seq<T>, count: nat, i: nat)
    requires |s| > 0 && i < |s| * count
    ensures Repeat(s, count)[i] == s[i % |s|]
    decreases count
  {
    if i < |s| {
      SmallRemainder(i, |s|);
    } else {
      assert i - |s| < |s| * (count - 1) by {
        Distribute(|s|, count, 1);
      }
      RepeatIndex(s, count - 1, i - |s|);
      SubtractOnce(i, |s|);
    }
  }

  /** A padded PNG is refused unless everything it asks for is in range. Otherwise it is the picture,
      then the SHA-256 of the seed over and over until the size asked for is reached. */
  lemma PaddedPngBytes(library: Library, item: map<string, Json>, k: nat)
    requires Sound(library)
    ensures PaddedPng(library, item).Ok? <==> AsksForPadding(item)
    ensures AsksForPadding(item) ==>
      var bytes, picture := PaddedPng(library, item).value, SyntheticPng(library, item);
      && |bytes| == Whole(Get(item, "bytes"))
      && picture.Ok? && |picture.value| <= |bytes| && bytes[..|picture.value|] == picture.value
      && (k < |bytes| - |picture.value| ==>
           bytes[|picture.value| + k] == library.sha256(Ascii(Get(item, "seed").text))[k % 32])
  {
    PaddingIsAskedForExactly(library, item);
    hide PaddedPng, SyntheticPng, Sound, AsksForPadding;
    if AsksForPadding(item) {
      PaddingBytes(library, item, k);
    }
  }

  lemma PaddingIsAskedForExactly(library: Library, item: map<string, Json>)
    requires Sound(library)
    ensures PaddedPng(library, item).Ok? <==> AsksForPadding(item)
    ensures AsksForPadding(item) ==>
      |PaddedPng(library, item).value| == Whole(Get(item, "bytes")) && Get(item, "seed").Str? && IsAscii(Get(item, "seed").text)
  {
    PicturesAreReadExactly(item);
    hide DecodePng, Sound, Repeat, AsksForPicture, Picture, Png, ParseSpec;
    PaddedPngShowsTheImage(library, item);
    hide PaddedPng;
  }

  lemma PaddingBytes(library: Library, item: map<string, Json>, k: nat)
    requires Sound(library) && PaddedPng(library, item).Ok?
    ensures SyntheticPng(library, item).Ok? && Get(item, "seed").Str? && IsAscii(Get(item, "seed").text)
    ensures var bytes, picture := PaddedPng(library, item).value, SyntheticPng(library, item).value;
      && |picture| <= |bytes| && bytes[..|picture|] == picture
      && (k < |bytes| - |picture| ==>
           bytes[|picture| + k] == library.sha256(Ascii(Get(item, "seed").text))[k % 32])
  {
    hide SyntheticPng, Repeat, Padding;
    var bytes, picture, seed := PaddedPng(library, item).value, SyntheticPng(library, item).value, Get(item, "seed").text;
    var block := Block(library, seed);
    assert |library.sha256(Ascii(seed))| == 32 && |block| == 65_536;
    var padding := Padding(block, |bytes| - |picture|);
    assert bytes == picture + padding;
    if k < |padding| {
      PaddingIsPeriodic(block, |padding|, k);
      RepeatIndex(library.sha256(Ascii(seed)), 2_048, k % 65_536);
      assert k % 65_536 % 32 == k % 32;
    }
  }

  /** The marker of a video file, which may be left out. */
  predicate AsksForVideo(item: map<string, Json>) {
    "marker" !in item || IsShortAscii(item["marker"])
  }

  /** The bytes of a video file: a QuickTime file type box, and a free box with the marker. */
  lemma IsoBmffBytes(item: map<string, Json>)
    ensures IsoBmff(item).Ok? <==> AsksForVideo(item)
    ensures AsksForVideo(item) ==>
      var marker := if "marker" in item then item["marker"].text else "synthetic-motion";
      && IsAscii(marker) && 1 <= |marker| <= 64
      && IsoBmff(item).value ==
         [0, 0, 0, 20, 'f' as int, 't' as int, 'y' as int, 'p' as int]
         + ['q' as int, 't' as int, ' ' as int, ' ' as int, 0, 0, 0, 0, 'q' as int, 't' as int, ' ' as int, ' ' as int]
         + [0, 0, 0, 8 + |marker|, 'f' as int, 'r' as int, 'e' as int, 'e' as int]
         + Ascii(marker)
  {
    MarkersExactly(item);
    hide Ascii, WriteBox, ValidMarker, IsAscii, AsksForVideo;
    var marker := Marker(item);
    if AsksForVideo(item) {
      FileTypeBytes();
      BoxBytes(FREE, Ascii(marker.text));
      hide U32, FileType;
      Associative(WriteBox(FTYP, FileType()), [0, 0, 0, 8 + |marker.text|, 'f' as int, 'r' as int, 'e' as int, 'e' as int], Ascii(marker.text));
    }
  }

  lemma MarkersExactly(item: map<string, Json>)
    ensures ValidMarker(Marker(item)) <==> AsksForVideo(item)
    ensures AsksForVideo(item) ==>
      && Marker(item).Str? && IsAscii(Marker(item).text) && 1 <= |Marker(item).text| <= 64
      && Marker(item).text == if "marker" in item then item["marker"].text else "synthetic-motion"
  {
    assert IsAscii("synthetic-motion") && |"synthetic-motion"| == 16;
  }

  lemma BoxBytes(kind: seq<Byte>, payload: seq<Byte>)
    requires |kind| == 4 && |payload| <= 64
    ensures WriteBox(kind, payload) == [0, 0, 0, 8 + |payload|] + kind + payload
  {
    assert U32(|payload| + 8) == [0, 0, 0, 8 + |payload|];
  }

  lemma FileTypeBytes()
    ensures WriteBox(FTYP, FileType()) ==
      [0, 0, 0, 20, 'f' as int, 't' as int, 'y' as int, 'p' as int]
      + ['q' as int, 't' as int, ' ' as int, ' ' as int, 0, 0, 0, 0, 'q' as int, 't' as int, ' ' as int, ' ' as int]
  {
    BoxBytes(FTYP, FileType());
    assert FileType() == ['q' as int, 't' as int, ' ' as int, ' ' as int, 0, 0, 0, 0, 'q' as int, 't' as int, ' ' as int, ' ' as int] by {
      assert U32(0) == [0, 0, 0, 0];
    }
    hide FileType, WriteBox;
  }

  /** What an item asks for can be made: the recipe is known and its fields are in range. */
  predicate CanBeMade(library: Library, item: map<string, Json>) {
    var recipe := Get(item, "recipe");
    && recipe.Str?
    && match recipe.text
       case "text" => Get(item, "content").Str? && |library.utf8(Get(item, "content").text)| <= 65_536
       case "synthetic_png" => AsksForPicture(item)
       case "synthetic_padded_png" => AsksForPadding(item)
       case "synthetic_isobmff" => AsksForVideo(item)
       case "symlink" => IsPath(Get(item, "target"))
       case _ => false
  }

  function Made(library: Library, item: map<string, Json>): Node
    requires Sound(library) && CanBeMade(library, item)
  {
    match Get(item, "recipe").text
    case "text" => File(library.utf8(Get(item, "content").text))
    case "synthetic_png" => PicturesAreReadExactly(item); File(Png(library, Picture(item)))
    case "synthetic_padded_png" => PaddedPngBytes(library, item, 0); File(PaddedPng(library, item).value)
    case "synthetic_isobmff" => IsoBmffBytes(item); File(IsoBmff(item).value)
    case _ => Link(PathOf(Get(item, "target")))
  }

  /** Each recipe by its name: a text as it stands, the three media, and a link to a portable path.
      Nothing else can be made. */
  lemma MadeExactly(library: Library, item: map<string, Json>)
    requires Sound(library)
    ensures Generate(library, item) == if CanBeMade(library, item) then Ok(Made(library, item)) else Err(Fixture)
  {
    hide PortablePath, IsPath, PathOf, PaddedPng, AsksForPadding, IsoBmff, AsksForVideo, Png, Rows, SyntheticPng, Sound,
      AsksForPicture, Picture, IsAscii, Whole, Ascii;
    var recipe := Get(item, "recipe");
    hide Get;
    if recipe == Str("synthetic_png") {
      PngIsMadeExactly(library, item);
    } else if recipe == Str("synthetic_padded_png") {
      PaddedPngBytes(library, item, 0);
      RefusedAsMalformed(library, item);
    } else if recipe == Str("synthetic_isobmff") {
      IsoBmffBytes(item);
      RefusedAsMalformed(library, item);
    } else {
      PathsExactly(Get(item, "target"));
    }
  }

  lemma PngIsMadeExactly(library: Library, item: map<string, Json>)
    requires Sound(library)
    ensures AsksForPicture(item) ==>
      ValidSpec(Picture(item)) && |library.compress(Rows(Picture(item)))| < 0x1_0000_0000
    ensures SyntheticPng(library, item) == if AsksForPicture(item) then Ok(Png(library, Picture(item))) else Err(Fixture)
  {
    PicturesAreReadExactly(item);
    hide AsksForPicture, Picture, ParseSpec, Png;
  }

  lemma RefusedAsMalformed(library: Library, item: map<string, Json>)
    ensures PaddedPng(library, item).Err? ==> PaddedPng(library, item) == Err(Fixture)
    ensures IsoBmff(item).Err? ==> IsoBmff(item) == Err(Fixture)
  {
    hide SyntheticPng, ValidMarker, WriteBox;
  }

  // ---------------------------------------------------------------- manifests

  predicate ArePaths(raws: seq<Json>) {
    forall i :: 0 <= i < |raws| ==> IsPath(raws[i])
  }

  function PathsOf(raws: seq<Json>): (paths: seq<string>)
    requires ArePaths(raws)
    ensures |paths| == |raws| && forall i :: 0 <= i < |raws| ==> paths[i] == PathOf(raws[i])
  {
    seq(|raws|, i requires 0 <= i < |raws| => PathOf(raws[i]))
  }

  lemma PathListsExactly(raws: seq<Json>)
    ensures PortablePaths(raws) == if ArePaths(raws) then Ok(PathsOf(raws)) else Err(Fixture)
  {
    ListsOfPathsExactly(raws);
    hide IsPath, PathOf;
    if ArePaths(raws) {
      assert PortablePaths(raws).value == PathsOf(raws);
    }
  }

  /** Strictly ascending is sorted without repeats. */
  lemma AscendingExactly(paths: seq<string>)
    ensures IsSorted(paths) && HasNoRepeats(paths) <==> Ascending(paths)
  {
    SortedExactly(paths);
    DistinctSize(paths);
    hide IsSorted, Less;
    forall i, j | 0 <= i < j < |paths|
      ensures Less(paths[i], paths[j]) <==> AtMost(paths[i], paths[j]) && paths[i] != paths[j]
    {
      LessIsTotal(paths[i], paths[j]);
    }
  }

  /** A ZIP file directly below the root, and a sorted list of at least one path. */
  predicate IsPart(part: Json) {
    && part.Obj?
    && IsPath(Get(part.members, "path"))
    && '/' !in PathOf(Get(part.members, "path")) && IsZipName(PathOf(Get(part.members, "path")))
    && Get(part.members, "files").Arr? && Get(part.members, "files").items != []
    && ArePaths(Get(part.members, "files").items) && InOrder(PathsOf(Get(part.members, "files").items))
  }

  lemma PartsExactly(part: Json)
    ensures ValidPart(part) <==> IsPart(part)
    ensures IsPart(part) ==> PartPaths(part) == Ok(PathsOf(part.members["files"].items))
    ensures IsPart(part) ==> PortablePath(Field(part, "path")) == Ok(PathOf(part.members["path"]))
  {
    if part.Obj? {
      var path := Get(part.members, "path");
      PathsExactly(path);
      if IsPath(path) {
        RootZipExactly(path);
      }
      hide IsPath, PathOf, IsRootZip, IsZipName, PortablePath, IsSorted, InOrder, ArePaths, PathsOf;
      if Get(part.members, "files").Arr? {
        var raws := Get(part.members, "files").items;
        PathListsExactly(raws);
        if ArePaths(raws) {
          SortedExactly(PathsOf(raws));
        }
      }
    }
  }

  predicate AreParts(parts: seq<Json>) {
    forall i :: 0 <= i < |parts| ==> IsPart(parts[i])
  }

  function NamesOf(parts: seq<Json>): (names: seq<string>)
    requires AreParts(parts)
    ensures |names| == |parts| && forall i :: 0 <= i < |parts| ==> names[i] == PathOf(parts[i].members["path"])
  {
    seq(|parts|, i requires 0 <= i < |parts| => PathOf(parts[i].members["path"]))
  }

  /** Every path the parts list, part by part. */
  function Listed(parts: seq<Json>): seq<string>
    requires AreParts(parts)
  {
    if |parts| == 0 then [] else PathsOf(parts[0].members["files"].items) + Listed(parts[1..])
  }

  lemma {:induction false} ListedExactly(parts: seq<Json>)
    requires AreParts(parts)
    ensures Assigned(parts) == Listed(parts) && PartNames(parts) == NamesOf(parts)
  {
    hide IsPart, PathOf;
    if |parts| > 0 {
      assert IsPart(parts[0]);
      PartsExactly(parts[0]);
      ListedExactly(parts[1..]);
      assert NamesOf(parts) == [NamesOf(parts)[0]] + NamesOf(parts[1..]);
    } else {
      assert NamesOf(parts) == [];
    }
  }

  /** A name, and parts in strictly ascending order that list each of the files once and nothing else. */
  ghost predicate IsView(view: Json, files: set<string>) {
    && view.Obj?
    && Get(view.members, "name").Str? && Get(view.members, "name").text != ""
    && Get(view.members, "parts").Arr? && Get(view.members, "parts").items != []
    && AreParts(Get(view.members, "parts").items)
    && Ascending(NamesOf(Get(view.members, "parts").items))
    && multiset(Listed(Get(view.members, "parts").items)) == multiset(files)
  }

  lemma ListedOnceExactly(listed: seq<string>, files: set<string>)
    ensures HasNoRepeats(listed) && Elements(listed) == files <==> multiset(listed) == multiset(files)
  {
    DistinctSize(listed);
    DistinctCounts(listed);
    if multiset(listed) == multiset(files) {
      forall path ensures path in listed <==> path in files {
        assert path in listed <==> path in multiset(listed);
      }
      assert Elements(listed) == files;
      assert |multiset(files)| == |files|;
    }
    if HasNoRepeats(listed) && Elements(listed) == files {
      forall path ensures multiset(listed)[path] == multiset(files)[path] {
        assert path in listed <==> path in multiset(listed);
      }
    }
  }

  function ViewName(view: Json, files: set<string>): string
    requires IsView(view, files)
  {
    view.members["name"].text
  }

  lemma ViewsExactly(view: Json, names: set<string>, files: set<string>)
    ensures ValidView(view, names, files) <==> IsView(view, files) && ViewName(view, files) !in names
    ensures IsView(view, files) ==> Field(view, "name") == Str(ViewName(view, files))
  {
    if view.Obj? && Get(view.members, "parts").Arr? {
      var parts := Get(view.members, "parts").items;
      ValidPartsExactly(parts);
      hide ValidPart, IsPart, IsSorted, HasNoRepeats, Ascending, Elements, Assigned, Listed, PartNames, NamesOf;
      if AreParts(parts) {
        ListedExactly(parts);
        AscendingExactly(NamesOf(parts));
        ListedOnceExactly(Listed(parts), files);
      }
    }
  }

  lemma ValidPartsExactly(parts: seq<Json>)
    ensures (forall i :: 0 <= i < |parts| ==> ValidPart(parts[i])) <==> AreParts(parts)
  {
    hide ValidPart, IsPart;
    forall i | 0 <= i < |parts| ensures ValidPart(parts[i]) <==> IsPart(parts[i]) {
      PartsExactly(parts[i]);
    }
  }

  /** Views with different names. */
  ghost predicate AreViews(views: seq<Json>, files: set<string>) {
    && (forall i :: 0 <= i < |views| ==> IsView(views[i], files))
    && (forall i, j :: 0 <= i < j < |views| ==> ViewName(views[i], files) != ViewName(views[j], files))
  }

  ghost predicate AreOtherViews(views: seq<Json>, names: set<string>, files: set<string>) {
    AreViews(views, files) && forall i :: 0 <= i < |views| ==> ViewName(views[i], files) !in names
  }

  lemma {:induction false} ListsOfViewsExactly(views: seq<Json>, names: set<string>, files: set<string>)
    ensures ValidViews(views, names, files) <==> AreOtherViews(views, names, files)
    decreases |views|
  {
    hide ValidView, IsView, ViewName, Field;
    if |views| > 0 {
      var rest := views[1..];
      assert forall i :: 0 < i < |views| ==> views[i] == rest[i - 1];
      ViewsExactly(views[0], names, files);
      if IsView(views[0], files) {
        var name := ViewName(views[0], files);
        ListsOfViewsExactly(rest, names + {name}, files);
        if AreOtherViews(views, names, files) {
          assert forall i :: 0 <= i < |rest| ==> rest[i] == views[i + 1];
        }
      }
    }
  }

  lemma AllViewsExactly(views: seq<Json>, files: set<string>)
    ensures ValidViews(views, {}, files) <==> AreViews(views, files)
  {
    hide ValidViews, AreViews;
    ListsOfViewsExactly(views, {}, files);
  }

  // ---------------------------------------------------------------- whole manifests

  function SchemaName(version: nat): string
    requires 1 <= version <= 4
  {
    match version
    case 1 => "fixture-manifest-v1"
    case 2 => "fixture-manifest-v2"
    case 3 => "fixture-manifest-v3"
    case _ => "fixture-manifest-v4"
  }

  /** Where a fixture of a schema version must say it comes from, and nothing besides. */
  predicate ComesFrom(provenance: Json, version: nat) {
    && provenance.Obj?
    && provenance.members.Keys == {"kind", "generator", "generator_version", "license"}
    && provenance.members["kind"] == Str("synthetic")
    && provenance.members["generator"] == Str("scripts/materialize-fixture.py")
    && provenance.members["generator_version"] == Str([('0' as int + version % 10) as char])
    && provenance.members["license"] == Str("CC0-1.0")
  }

  predicate AreItems(items: seq<Json>) {
    forall i :: 0 <= i < |items| ==> items[i].Obj? && IsPath(Get(items[i].members, "path"))
  }

  function ItemPaths(items: seq<Json>): (paths: seq<string>)
    requires AreItems(items)
    ensures |paths| == |items| && forall i :: 0 <= i < |items| ==> paths[i] == PathOf(items[i].members["path"])
  {
    seq(|items|, i requires 0 <= i < |items| => PathOf(items[i].members["path"]))
  }

  /** A manifest of one of the four versions: its provenance, at least one file, the files' paths in
      strictly ascending order, and from version 2 on at least one view of them. */
  ghost predicate IsManifest(manifest: Json, version: nat) {
    && 1 <= version <= 4
    && manifest.Obj?
    && Get(manifest.members, "schema") == Str(SchemaName(version))
    && ComesFrom(Get(manifest.members, "provenance"), version)
    && Get(manifest.members, "files").Arr? && Get(manifest.members, "files").items != []
    && AreItems(Get(manifest.members, "files").items)
    && Ascending(ItemPaths(Get(manifest.members, "files").items))
    && (version >= 2 ==>
         && Get(manifest.members, "archive_views").Arr? && Get(manifest.members, "archive_views").items != []
         && AreViews(Get(manifest.members, "archive_views").items, Elements(ItemPaths(Get(manifest.members, "files").items))))
  }

  lemma {:induction false} ItemPathsExactly(items: seq<Json>)
    ensures PortablePaths(Fields(items, "path")) == if AreItems(items) then Ok(ItemPaths(items)) else Err(Fixture)
  {
    FieldsMean(items);
    PathListsExactly(Fields(items, "path"));
    hide PathOf, PortablePaths, Fields;
    assert IsPath(Null) == false;
    hide IsPath;
    if ArePaths(Fields(items, "path")) {
      forall i | 0 <= i < |items| ensures items[i].Obj? && IsPath(Get(items[i].members, "path")) {
        assert IsPath(Fields(items, "path")[i]);
      }
    }
    if AreItems(items) {
      assert PathsOf(Fields(items, "path")) == ItemPaths(items);
    }
  }

  lemma {:induction false} FieldsMean(items: seq<Json>)
    ensures |Fields(items, "path")| == |items|
    ensures forall i :: 0 <= i < |items| ==>
      Fields(items, "path")[i] == if items[i].Obj? then Get(items[i].members, "path") else Null
  {
    if |items| > 0 {
      FieldsMean(items[1..]);
    }
  }

  lemma ProvenanceExactly(json: Json, version: nat)
    requires 1 <= version <= 4
    ensures json == Provenance([('0' as int + version) as char]) <==> ComesFrom(json, version)
  {
    if ComesFrom(json, version) {
      var expected := Provenance([('0' as int + version) as char]).members;
      assert json.members.Keys == expected.Keys;
      assert json.members == expected;
    }
  }

  lemma SchemasExactly(schema: string)
    ensures schema in SCHEMAS <==> exists version: nat | 1 <= version <= 4 :: schema == SchemaName(version)
    ensures forall version: nat | 1 <= version <= 4 ::
      && SchemaName(version) in SCHEMAS && SCHEMAS[SchemaName(version)] == [('0' as int + version) as char]
      && (Validated(SchemaName(version)) <==> version >= 2)
  {
    assert schema in SCHEMAS ==> schema == SchemaName(1) || schema == SchemaName(2) || schema == SchemaName(3) || schema == SchemaName(4);
  }

  /** A manifest is loaded exactly when it is one of some version, and then gives its files' paths. */
  lemma ManifestsExactly(manifest: Json)
    ensures LoadManifest(manifest).Ok? <==> exists version: nat :: IsManifest(manifest, version)
    ensures forall version: nat :: IsManifest(manifest, version) ==>
      LoadManifest(manifest) == Ok(ItemPaths(manifest.members["files"].items))
    ensures LoadManifest(manifest).Err? ==> LoadManifest(manifest).error == Fixture
  {
    if manifest.Obj? && Get(manifest.members, "schema").Str? {
      var schema := Get(manifest.members, "schema").text;
      SchemasExactly(schema);
      if version: nat :| 1 <= version <= 4 && schema == SchemaName(version) {
        VersionExactly(manifest, version);
        OneVersion(manifest, version);
      } else {
        hide IsManifest;
        NoVersion(manifest);
      }
    }
  }

  lemma NoVersion(manifest: Json)
    requires manifest.Obj? && Get(manifest.members, "schema").Str?
    requires Get(manifest.members, "schema").text !in SCHEMAS
    ensures LoadManifest(manifest) == Err(Fixture)
    ensures !exists version: nat :: IsManifest(manifest, version)
  {
    SchemasExactly(Get(manifest.members, "schema").text);
  }

  lemma OneVersion(manifest: Json, version: nat)
    requires manifest.Obj? && 1 <= version <= 4 && Get(manifest.members, "schema") == Str(SchemaName(version))
    ensures forall other: nat :: IsManifest(manifest, other) ==> other == version
  {
  }

  lemma VersionExactly(manifest: Json, version: nat)
    requires manifest.Obj? && 1 <= version <= 4 && Get(manifest.members, "schema") == Str(SchemaName(version))
    ensures LoadManifest(manifest) ==
      if IsManifest(manifest, version) then Ok(ItemPaths(Get(manifest.members, "files").items)) else Err(Fixture)
  {
    SchemasExactly(SchemaName(version));
    ProvenanceExactly(Get(manifest.members, "provenance"), version);
    hide Get, Provenance, ComesFrom, SchemaName, Validated, IsSorted, HasNoRepeats, Ascending, ItemPaths, AreItems, AreViews,
      AreOtherViews, ValidViews, Elements, Fields, PortablePaths;
    if Get(manifest.members, "files").Arr? && ComesFrom(Get(manifest.members, "provenance"), version) {
      var items := Get(manifest.members, "files").items;
      ItemPathsExactly(items);
      if AreItems(items) && items != [] {
        AscendingExactly(ItemPaths(items));
        if Ascending(ItemPaths(items)) {
          AllViewsExactly(ListOf(Field(manifest, "archive_views")), Elements(ItemPaths(items)));
        }
      }
    }
  }

  // ---------------------------------------------------------------- the directory

  /** What a tree holds under some of its paths. */
  function Under(tree: Tree, paths: set<string>): Tree {
    map path | path in tree && path in paths :: tree[path]
  }

  ghost predicate AreFree(before: Tree, paths: seq<string>) {
    Distinct(paths) && forall i :: 0 <= i < |paths| ==> paths[i] !in before
  }

  ghost predicate Maps(paths: seq<string>, nodes: seq<Node>, tree: Tree)
    requires |paths| == |nodes|
  {
    forall i :: 0 <= i < |paths| ==> paths[i] in tree && tree[paths[i]] == nodes[i]
  }

  ghost predicate HoldsThese(before: Tree, paths: seq<string>, nodes: seq<Node>, tree: Tree)
    requires |paths| == |nodes|
  {
    && tree.Keys == before.Keys + Elements(paths)
    && Under(tree, before.Keys) == before
    && Maps(paths, nodes, tree)
  }

  ghost predicate MayBeCreated(host: Host, before: Tree, paths: seq<string>, tree: Tree) {
    forall i :: 0 <= i < |paths| ==> host.creatable(Under(tree, before.Keys + Elements(paths[..i])), paths[i])
  }

  /** Every file is added under its own path, none of which is taken: neither by a file before it nor by
      what was there. The file system is asked for each with just those in place. */
  ghost predicate Adds(host: Host, before: Tree, paths: seq<string>, nodes: seq<Node>, tree: Tree) {
    && |paths| == |nodes|
    && AreFree(before, paths) && HoldsThese(before, paths, nodes, tree) && MayBeCreated(host, before, paths, tree)
  }

  lemma ElementsCons(first: string, rest: seq<string>)
    ensures Elements([first] + rest) == {first} + Elements(rest)
  {
    assert ([first] + rest)[1..] == rest;
    ElementsFront([first] + rest);
  }

  lemma FreeCons(before: Tree, path: string, node: Node, rest: seq<string>)
    ensures AreFree(before, [path] + rest) <==> path !in before && AreFree(before[path := node], rest)
  {
    var paths, updated := [path] + rest, before[path := node];
    assert forall i :: 0 <= i < |rest| ==> rest[i] == paths[i + 1];
    if AreFree(before, paths) {
      assert paths[0] == path && path !in before;
      forall i | 0 <= i < |rest| ensures rest[i] !in updated {
        assert paths[i + 1] != paths[0];
      }
    }
    if path !in before && AreFree(updated, rest) {
      forall i, j | 0 <= i < j < |paths| ensures paths[i] != paths[j] {
        assert rest[j - 1] !in updated;
      }
    }
  }

  lemma UnderCons(before: Tree, path: string, node: Node, tree: Tree)
    requires path !in before && path in tree
    ensures var updated := before[path := node];
      Under(tree, updated.Keys) == updated <==> Under(tree, before.Keys) == before && tree[path] == node
  {
    var updated := before[path := node];
    assert updated.Keys == before.Keys + {path};
    if Under(tree, updated.Keys) == updated {
      assert tree[path] == Under(tree, updated.Keys)[path];
      forall other | other in before ensures other in tree && tree[other] == before[other] {
        assert other in Under(tree, updated.Keys) && Under(tree, updated.Keys)[other] == updated[other];
      }
      assert Under(tree, before.Keys) == before;
    }
    if Under(tree, before.Keys) == before && tree[path] == node {
      forall other | other in before ensures other in tree && tree[other] == before[other] {
        assert other in Under(tree, before.Keys);
      }
      assert Under(tree, updated.Keys) == updated;
    }
  }

  lemma MapsCons(path: string, node: Node, rest: seq<string>, nodes: seq<Node>, tree: Tree)
    requires |rest| == |nodes|
    ensures Maps([path] + rest, [node] + nodes, tree) <==> path in tree && tree[path] == node && Maps(rest, nodes, tree)
  {
    var paths, all := [path] + rest, [node] + nodes;
    assert paths[0] == path && all[0] == node;
    assert forall i :: 0 <= i < |rest| ==> rest[i] == paths[i + 1] && nodes[i] == all[i + 1];
  }

  lemma HoldsCons(before: Tree, path: string, node: Node, rest: seq<string>, nodes: seq<Node>, tree: Tree)
    requires path !in before && |rest| == |nodes|
    ensures HoldsThese(before, [path] + rest, [node] + nodes, tree) <==> HoldsThese(before[path := node], rest, nodes, tree)
  {
    var updated := before[path := node];
    ElementsCons(path, rest);
    MapsCons(path, node, rest, nodes, tree);
    assert updated.Keys == before.Keys + {path};
    hide Maps, Elements, Under;
    assert before.Keys + ({path} + Elements(rest)) == updated.Keys + Elements(rest);
    if path in tree {
      UnderCons(before, path, node, tree);
    }
  }

  lemma CreatedCons(host: Host, before: Tree, path: string, node: Node, rest: seq<string>, tree: Tree)
    requires path !in before && Under(tree, before.Keys) == before
    ensures MayBeCreated(host, before, [path] + rest, tree) <==>
      host.creatable(before, path) && MayBeCreated(host, before[path := node], rest, tree)
  {
    var paths, updated := [path] + rest, before[path := node];
    assert before.Keys + Elements(paths[..0]) == before.Keys;
    forall i | 0 <= i < |rest| ensures before.Keys + Elements(paths[..i + 1]) == updated.Keys + Elements(rest[..i]) {
      assert paths[..i + 1] == [path] + rest[..i];
      ElementsCons(path, rest[..i]);
    }
    hide Under, Elements;
    if MayBeCreated(host, before, paths, tree) {
      assert host.creatable(Under(tree, before.Keys + Elements(paths[..0])), paths[0]);
      forall i | 0 <= i < |rest| ensures host.creatable(Under(tree, updated.Keys + Elements(rest[..i])), rest[i]) {
        assert host.creatable(Under(tree, before.Keys + Elements(paths[..i + 1])), paths[i + 1]);
      }
    }
    if host.creatable(before, path) && MayBeCreated(host, updated, rest, tree) {
      forall i | 0 <= i < |paths| ensures host.creatable(Under(tree, before.Keys + Elements(paths[..i])), paths[i]) {
        if i > 0 {
          assert host.creatable(Under(tree, updated.Keys + Elements(rest[..i - 1])), rest[i - 1]);
        }
      }
    }
  }

  lemma AddsCons(host: Host, before: Tree, path: string, node: Node, rest: seq<string>, nodes: seq<Node>, tree: Tree)
    ensures Adds(host, before, [path] + rest, [node] + nodes, tree) <==>
      path !in before && host.creatable(before, path) && Adds(host, before[path := node], rest, nodes, tree)
  {
    hide AreFree, HoldsThese, MayBeCreated;
    FreeCons(before, path, node, rest);
    if path !in before && |rest| == |nodes| {
      HoldsCons(before, path, node, rest, nodes, tree);
      if HoldsThese(before, [path] + rest, [node] + nodes, tree) {
        HoldsBefore(before, [path] + rest, [node] + nodes, tree);
        CreatedCons(host, before, path, node, rest, tree);
      }
    }
  }

  lemma HoldsBefore(before: Tree, paths: seq<string>, nodes: seq<Node>, tree: Tree)
    requires |paths| == |nodes| && HoldsThese(before, paths, nodes, tree)
    ensures Under(tree, before.Keys) == before
  {
  }

  // ---------------------------------------------------------------- making the files

  predicate HaveRecipes(library: Library, items: seq<Json>) {
    forall i :: 0 <= i < |items| ==> items[i].Obj? && CanBeMade(library, items[i].members)
  }

  predicate CanAllBeMade(library: Library, items: seq<Json>) {
    AreItems(items) && HaveRecipes(library, items)
  }

  ghost function AllMade(library: Library, items: seq<Json>): (nodes: seq<Node>)
    requires Sound(library) && CanAllBeMade(library, items)
    ensures |nodes| == |items| && forall i :: 0 <= i < |items| ==> nodes[i] == Made(library, items[i].members)
  {
    seq(|items|, i requires 0 <= i < |items| => Made(library, items[i].members))
  }

  lemma ItemExactly(library: Library, host: Host, before: Tree, item: Json)
    requires Sound(library)
    ensures MaterializeItem(library, host, before, item).Ok? <==>
      && item.Obj? && IsPath(Get(item.members, "path")) && CanBeMade(library, item.members)
      && PathOf(item.members["path"]) !in before && host.creatable(before, PathOf(item.members["path"]))
    ensures MaterializeItem(library, host, before, item).Ok? ==>
      MaterializeItem(library, host, before, item).value == before[PathOf(item.members["path"]) := Made(library, item.members)]
  {
    if item.Obj? {
      PathsExactly(Get(item.members, "path"));
      MadeExactly(library, item.members);
    }
    hide IsPath, PathOf, PortablePath, CanBeMade, Made, Generate, Sound;
  }

  lemma ItemsCons(items: seq<Json>)
    requires |items| > 0
    ensures AreItems(items) <==> items[0].Obj? && IsPath(Get(items[0].members, "path")) && AreItems(items[1..])
    ensures AreItems(items) ==> ItemPaths(items) == [PathOf(items[0].members["path"])] + ItemPaths(items[1..])
  {
    hide IsPath, PathOf, Get;
    assert forall i :: 0 < i < |items| ==> items[i] == items[1..][i - 1];
  }

  lemma MadeCons(library: Library, items: seq<Json>)
    requires Sound(library) && |items| > 0
    ensures CanAllBeMade(library, items) <==>
      && items[0].Obj? && IsPath(Get(items[0].members, "path")) && CanBeMade(library, items[0].members)
      && CanAllBeMade(library, items[1..])
    ensures CanAllBeMade(library, items) ==>
      && AreItems(items) && AreItems(items[1..])
      && ItemPaths(items) == [PathOf(items[0].members["path"])] + ItemPaths(items[1..])
      && AllMade(library, items) == [Made(library, items[0].members)] + AllMade(library, items[1..])
  {
    ItemsCons(items);
    RecipesCons(library, items);
    hide IsPath, PathOf, CanBeMade, Made, Sound, Get, ItemPaths, AreItems, HaveRecipes, AllMade;
    if CanAllBeMade(library, items) {
      NodesCons(library, items);
    }
  }

  lemma NodesCons(library: Library, items: seq<Json>)
    requires Sound(library) && |items| > 0 && CanAllBeMade(library, items) && CanAllBeMade(library, items[1..])
    ensures AllMade(library, items) == [AllMade(library, items)[0]] + AllMade(library, items[1..])
  {
    hide IsPath, CanBeMade, Made, Sound, Get, ItemPaths, AreItems;
    var rest, nodes := items[1..], AllMade(library, items);
    assert forall i :: 0 <= i < |rest| ==> rest[i] == items[i + 1];
    hide HaveRecipes, CanAllBeMade;
    assert nodes[1..] == AllMade(library, rest);
  }

  lemma RecipesCons(library: Library, items: seq<Json>)
    requires |items| > 0
    ensures HaveRecipes(library, items) <==>
      items[0].Obj? && CanBeMade(library, items[0].members) && HaveRecipes(library, items[1..])
  {
    hide CanBeMade;
    assert forall i :: 0 < i < |items| ==> items[i] == items[1..][i - 1];
  }

  /** The files are materialized exactly when each can be, and what they leave is given by their
      paths and recipes. */
  lemma {:induction false} FilesExactly(library: Library, host: Host, before: Tree, items: seq<Json>, tree: Tree)
    requires Sound(library)
    ensures MaterializeFiles(library, host, before, items) == Ok(tree) <==>
      CanAllBeMade(library, items) && Adds(host, before, ItemPaths(items), AllMade(library, items), tree)
    decreases |items|
  {
    assert !IsPath(Null);
    hide Adds, Made, CanBeMade, CanAllBeMade, AllMade, ItemPaths, IsPath, PathOf, MaterializeItem, Sound;
    if |items| == 0 {
      NoFiles(library, host, before, tree);
    } else {
      MadeCons(library, items);
      ItemExactly(library, host, before, items[0]);
      if items[0].Obj? && IsPath(Get(items[0].members, "path")) && CanBeMade(library, items[0].members) {
        var path, node := PathOf(Get(items[0].members, "path")), Made(library, items[0].members);
        FilesExactly(library, host, before[path := node], items[1..], tree);
        if CanAllBeMade(library, items[1..]) {
          AddsCons(host, before, path, node, ItemPaths(items[1..]), AllMade(library, items[1..]), tree);
        }
      }
    }
  }

  lemma NoFiles(library: Library, host: Host, before: Tree, tree: Tree)
    requires Sound(library)
    ensures CanAllBeMade(library, [])
    ensures before == tree <==> Adds(host, before, ItemPaths([]), AllMade(library, []), tree)
  {
    assert Elements<string>([]) == {};
    assert Under(tree, tree.Keys) == tree;
    assert before.Keys + {} == before.Keys;
  }

  /** The directory view is made exactly when the manifest is one and its files can be made one after
      the other in an empty directory. */
  lemma DirectoryExactly(library: Library, host: Host, manifest: Json, tree: Tree)
    requires Sound(library)
    ensures DirectoryView(library, host, manifest) == Ok(tree) <==>
      && (exists version: nat :: IsManifest(manifest, version))
      && CanAllBeMade(library, manifest.members["files"].items)
      && Adds(host, map[], ItemPaths(manifest.members["files"].items), AllMade(library, manifest.members["files"].items), tree)
  {
    ManifestsExactly(manifest);
    FilesExactly(library, host, map[], ListOf(Field(manifest, "files")), tree);
    hide LoadManifest, MaterializeFiles, Adds, CanAllBeMade, AllMade, Sound, ItemPaths, AreItems, Ascending, AreViews, ComesFrom,
      SchemaName;
  }

  // ---------------------------------------------------------------- the archives

  /** The entries of an archive: one per path listed, each a regular file of the staged tree. */
  predicate AreEntries(tree: Tree, raws: seq<Json>, entries: seq<ZipEntry>) {
    && |entries| == |raws|
    && forall i :: 0 <= i < |raws| ==> IsEntry(tree, raws[i], entries[i])
  }

  predicate IsEntry(tree: Tree, raw: Json, entry: ZipEntry) {
    IsPath(raw) && entry.name == PathOf(raw) && entry.name in tree && tree[entry.name] == File(entry.bytes)
  }

  lemma EntryExactly(tree: Tree, raw: Json, entry: ZipEntry)
    ensures ReadStaged(tree, raw) == Ok(entry) <==> IsEntry(tree, raw, entry)
  {
    PathsExactly(raw);
    hide IsPath, PathOf, PortablePath;
  }

  lemma {:induction false} EntriesExactly(tree: Tree, raws: seq<Json>, before: seq<ZipEntry>, entries: seq<ZipEntry>)
    ensures WriteArchive(tree, raws, before) == Ok(before + entries) <==> AreEntries(tree, raws, entries)
    ensures WriteArchive(tree, raws, before).Ok? ==> before <= WriteArchive(tree, raws, before).value
    decreases |raws|
  {
    if |raws| > 0 {
      var read := ReadStaged(tree, raws[0]);
      if |entries| > 0 {
        EntryExactly(tree, raws[0], entries[0]);
      }
      hide ReadStaged, IsEntry;
      if read.Ok? {
        EntriesExactly(tree, raws[1..], before + [read.value], if |entries| > 0 then entries[1..] else []);
        Regroup(before, read.value, entries, WriteArchive(tree, raws, before));
        EntriesCons(tree, raws, entries);
      }
    } else {
      assert before + entries == before <==> entries == [];
    }
  }

  lemma Regroup(before: seq<ZipEntry>, entry: ZipEntry, entries: seq<ZipEntry>, written: Result<seq<ZipEntry>, Failure>)
    requires written.Ok? ==> before + [entry] <= written.value
    ensures written == Ok(before + entries) <==>
      |entries| > 0 && entries[0] == entry && written == Ok((before + [entry]) + entries[1..])
    ensures written.Ok? ==> before <= written.value
  {
    if |entries| > 0 {
      assert entries == [entries[0]] + entries[1..];
      Associative(before, [entries[0]], entries[1..]);
    }
    if written == Ok(before + entries) {
      assert written.value[|before|] == entry;
      assert |entries| > 0;
      assert entries[0] == (before + entries)[|before|];
    }
  }

  lemma EntriesCons(tree: Tree, raws: seq<Json>, entries: seq<ZipEntry>)
    requires |raws| > 0
    ensures AreEntries(tree, raws, entries) <==>
      |entries| > 0 && IsEntry(tree, raws[0], entries[0]) && AreEntries(tree, raws[1..], entries[1..])
  {
    hide IsEntry;
    if |entries| > 0 {
      var rest, others := raws[1..], entries[1..];
      assert forall i :: 0 <= i < |rest| ==> rest[i] == raws[i + 1];
      assert forall i :: 0 <= i < |others| ==> others[i] == entries[i + 1];
    }
  }

  lemma AllEntriesExactly(tree: Tree, raws: seq<Json>, entries: seq<ZipEntry>)
    ensures WriteArchive(tree, raws, []) == Ok(entries) <==> AreEntries(tree, raws, entries)
  {
    EntriesExactly(tree, raws, [], entries);
    assert [] + entries == entries;
  }

  /** An archive of a part: a file directly below the output directory that is not yet there and is not
      the staging directory, with one entry per path. */
  predicate IsArchive(host: Host, tree: Tree, part: Json, before: seq<Archive>, archive: Archive) {
    && part.Obj? && Get(part.members, "files").Arr? && IsPath(Get(part.members, "path"))
    && archive.path == PathOf(part.members["path"])
    && '/' !in archive.path && archive.path != "." && archive.path != ".fixture-staging"
    && (forall i :: 0 <= i < |before| ==> before[i].path != archive.path)
    && host.creatable(map[], archive.path)
    && AreEntries(tree, part.members["files"].items, archive.entries)
  }

  lemma ArchiveExactly(host: Host, tree: Tree, part: Json, before: seq<Archive>, archive: Archive)
    ensures WritePart(host, tree, before, part) == Ok(before + [archive]) <==> IsArchive(host, tree, part, before, archive)
    ensures WritePart(host, tree, before, part).Ok? ==> exists last :: WritePart(host, tree, before, part) == Ok(before + [last])
  {
    if part.Obj? && Get(part.members, "files").Arr? {
      var path, raws := Get(part.members, "path"), Get(part.members, "files").items;
      PathsExactly(path);
      if IsPath(path) {
        OnePart(path);
        AllEntriesExactly(tree, raws, archive.entries);
        hide IsPath, PathOf, PortablePath, Parts, WriteArchive, AreEntries;
        if WriteArchive(tree, raws, []).Ok? {
          var written := Archive(PathOf(path), WriteArchive(tree, raws, []).value);
          assert before + [written] == before + [archive] <==> written == archive by {
            assert (before + [written])[|before|] == written && (before + [archive])[|before|] == archive;
          }
        }
      }
    }
  }

  /** One archive per part, each beside those before it. */
  predicate AreArchives(host: Host, tree: Tree, parts: seq<Json>, before: seq<Archive>, archives: seq<Archive>) {
    && |archives| == |parts|
    && forall i :: 0 <= i < |parts| ==> IsArchive(host, tree, parts[i], before + archives[..i], archives[i])
  }

  lemma ArchivesCons(host: Host, tree: Tree, parts: seq<Json>, before: seq<Archive>, archives: seq<Archive>)
    requires |parts| > 0
    ensures AreArchives(host, tree, parts, before, archives) <==>
      && |archives| > 0 && IsArchive(host, tree, parts[0], before, archives[0])
      && AreArchives(host, tree, parts[1..], before + [archives[0]], archives[1..])
  {
    hide IsArchive;
    if |archives| > 0 {
      var rest, others := parts[1..], archives[1..];
      assert before + archives[..0] == before;
      forall i | 0 <= i < |others| ensures (before + [archives[0]]) + others[..i] == before + archives[..i + 1] {
        assert archives[..i + 1] == [archives[0]] + others[..i];
      }
      if AreArchives(host, tree, parts, before, archives) {
        assert IsArchive(host, tree, parts[0], before + archives[..0], archives[0]);
        forall i | 0 <= i < |rest|
          ensures IsArchive(host, tree, rest[i], (before + [archives[0]]) + others[..i], others[i])
        {
          assert IsArchive(host, tree, parts[i + 1], before + archives[..i + 1], archives[i + 1]);
        }
      }
      if |others| == |rest| && AreArchives(host, tree, rest, before + [archives[0]], others)
         && IsArchive(host, tree, parts[0], before, archives[0]) {
        forall i | 0 <= i < |parts| ensures IsArchive(host, tree, parts[i], before + archives[..i], archives[i]) {
          if i > 0 {
            assert IsArchive(host, tree, rest[i - 1], (before + [archives[0]]) + others[..i - 1], others[i - 1]);
          }
        }
      }
    }
  }

  lemma {:induction false} ArchivesExactly(host: Host, tree: Tree, parts: seq<Json>, before: seq<Archive>, archives: seq<Archive>)
    ensures WriteParts(host, tree, before, parts) == Ok(before + archives) <==> AreArchives(host, tree, parts, before, archives)
    ensures WriteParts(host, tree, before, parts).Ok? ==> before <= WriteParts(host, tree, before, parts).value
    decreases |parts|
  {
    if |parts| > 0 {
      ArchivesCons(host, tree, parts, before, archives);
      hide AreArchives, IsArchive, WritePart;
      if |archives| > 0 {
        ArchiveExactly(host, tree, parts[0], before, archives[0]);
        var updated := before + [archives[0]];
        ArchivesExactly(host, tree, parts[1..], updated, archives[1..]);
        assert archives == [archives[0]] + archives[1..];
        Associative(before, [archives[0]], archives[1..]);
      }
      if WritePart(host, tree, before, parts[0]).Ok? {
        ArchiveExactly(host, tree, parts[0], before, Archive("", []));
        var last :| WritePart(host, tree, before, parts[0]) == Ok(before + [last]);
        ArchivesExactly(host, tree, parts[1..], before + [last], []);
        if WriteParts(host, tree, before, parts) == Ok(before + archives) {
          assert (before + archives)[|before|] == (before + [last])[|before|] == last;
          assert |archives| > 0 && archives[0] == (before + archives)[|before|];
        }
      }
    } else {
      assert before + archives == before <==> archives == [];
    }
  }

  /** The first view that carries the name. */
  predicate IsSelected(manifest: Json, name: string, view: Json) {
    && manifest.Obj? && Get(manifest.members, "archive_views").Arr?
    && var views := Get(manifest.members, "archive_views").items;
    && exists i :: 0 <= i < |views| && views[i] == view && IsNamedView(view, name)
                   && forall j :: 0 <= j < i ==> !IsNamedView(views[j], name)
  }

  predicate IsNamedView(view: Json, name: string) {
    view.Obj? && Get(view.members, "name") == Str(name)
  }

  lemma {:induction false} SelectedExactly(views: seq<Json>, name: string, view: Json)
    requires view.Obj?
    ensures SelectView(views, name) == view <==>
      exists i :: 0 <= i < |views| && views[i] == view && IsNamedView(view, name)
                  && forall j :: 0 <= j < i ==> !IsNamedView(views[j], name)
  {
    hide IsNamedView;
    if |views| > 0 {
      var rest := views[1..];
      assert IsNamedView(views[0], name) <==> Field(views[0], "name") == Str(name) by {
        FieldNames(views[0], name);
      }
      SelectedExactly(rest, name, view);
      if i :| 0 <= i < |rest| && rest[i] == view && IsNamedView(view, name) && forall j :: 0 <= j < i ==> !IsNamedView(rest[j], name) {
        assert views[i + 1] == view;
        if !IsNamedView(views[0], name) {
          forall j | 0 <= j < i + 1 ensures !IsNamedView(views[j], name) {
            assert j > 0 ==> views[j] == rest[j - 1];
          }
        }
      }
      if i :| 0 <= i < |views| && views[i] == view && IsNamedView(view, name) && forall j :: 0 <= j < i ==> !IsNamedView(views[j], name) {
        if i > 0 {
          assert rest[i - 1] == view;
          forall j | 0 <= j < i - 1 ensures !IsNamedView(rest[j], name) {
            assert rest[j] == views[j + 1];
          }
        }
      }
    }
  }

  lemma FieldNames(view: Json, name: string)
    ensures IsNamedView(view, name) <==> Field(view, "name") == Str(name)
  {
  }

  /** An archive view is made exactly when the directory view is, the first view of the name has parts,
      and the archives are those of its parts, one beside the other. */
  lemma ArchiveViewExactly(library: Library, host: Host, manifest: Json, name: string, archives: seq<Archive>)
    ensures ArchiveView(library, host, manifest, name) == Ok(archives) <==>
      && DirectoryView(library, host, manifest).Ok?
      && exists view :: IsSelected(manifest, name, view) && Get(view.members, "parts").Arr?
           && AreArchives(host, DirectoryView(library, host, manifest).value, Get(view.members, "parts").items, [], archives)
  {
    var views := ListOf(Field(manifest, "archive_views"));
    var selected := SelectView(views, name);
    hide LoadManifest, MaterializeFiles, WriteParts, AreArchives, SelectView;
    forall view: Json | view.Obj? ensures selected == view <==> IsSelected(manifest, name, view) {
      SelectedExactly(views, name, view);
    }
    hide IsSelected;
    if DirectoryView(library, host, manifest).Ok? {
      var tree := DirectoryView(library, host, manifest).value;
      ArchivesExactly(host, tree, ListOf(Field(selected, "parts")), [], archives);
      assert [] + archives == archives;
    }
  }
}

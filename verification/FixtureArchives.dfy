/** Directory and split-archive views of a fixture: scripts/materialize-fixture.py. */
module FixtureArchives {
  import opened Bytes
  import opened FixtureMedia
  import opened Json
  import opened Ordering
  import opened PosixPath
  import opened Sequences
  import opened Wrappers

  const MAX_TEXT_BYTES := 65_536
  const STAGING := ".fixture-staging"

  datatype Node = File(bytes: seq<Byte>) | Link(target: string)

  /** What a directory tree holds, by relative path. */
  type Tree = map<string, Node>

  /** What the file system may refuse beyond a name that is already taken. */
  datatype Host = Host(creatable: (Tree, string) -> bool)

  datatype ZipEntry = ZipEntry(name: string, bytes: seq<Byte>)

  datatype Archive = Archive(path: string, entries: seq<ZipEntry>)

  // ---------------------------------------------------------------- paths

  /** `_portable_relative_path`, as the POSIX form of the path. */
  function PortablePath(raw: Json): Result<string, Failure> {
    if !raw.Str? || raw.text == "" || '\\' in raw.text || '\0' in raw.text then Err(Fixture)
    else if IsAbsolute(raw.text) || ".." in Parts(raw.text) then Err(Fixture)
    else Ok(AsPosix(Parts(raw.text)))
  }

  function PortablePaths(raws: seq<Json>): Result<seq<string>, Failure> {
    if |raws| == 0 then Ok([])
    else
      match PortablePath(raws[0])
      case Err(failure) => Err(failure)
      case Ok(first) =>
        match PortablePaths(raws[1..])
        case Err(failure) => Err(failure)
        case Ok(rest) => Ok([first] + rest)
  }

  predicate IsSorted(paths: seq<string>) {
    paths == Sort(paths, AtMost)
  }

  predicate HasNoRepeats(paths: seq<string>) {
    |paths| == |Elements(paths)|
  }

  /** A path directly below the root with the suffix of a ZIP file, in any case. */
  predicate IsRootZip(path: string) {
    var parts := Parts(path);
    && |parts| <= 1
    && IsZipSuffix(Suffix(if |parts| == 0 then "" else parts[0]))
  }

  predicate IsZipSuffix(suffix: string) {
    && |suffix| == 4 && suffix[0] == '.'
    && suffix[1] in {'z', 'Z'} && suffix[2] in {'i', 'I'} && suffix[3] in {'p', 'P'}
  }

  // ---------------------------------------------------------------- manifest checks

  const SCHEMAS: map<string, string> :=
    map["fixture-manifest-v1" := "1", "fixture-manifest-v2" := "2", "fixture-manifest-v3" := "3", "fixture-manifest-v4" := "4"]

  function Provenance(version: string): Json {
    Obj(map[
      "kind" := Str("synthetic"),
      "generator" := Str("scripts/materialize-fixture.py"),
      "generator_version" := Str(version),
      "license" := Str("CC0-1.0")])
  }

  function Field(json: Json, key: string): Json {
    if json.Obj? then Get(json.members, key) else Null
  }

  function ListOf(json: Json): seq<Json> {
    if json.Arr? then json.items else []
  }

  function Fields(items: seq<Json>, key: string): seq<Json> {
    if |items| == 0 then [] else [Field(items[0], key)] + Fields(items[1..], key)
  }

  /** The normalized paths a part lists. */
  function PartPaths(part: Json): Result<seq<string>, Failure> {
    PortablePaths(ListOf(Field(part, "files")))
  }

  predicate ValidPart(part: Json) {
    var path := PortablePath(Field(part, "path"));
    && part.Obj?
    && path.Ok? && IsRootZip(path.value)
    && ListOf(Field(part, "files")) != []
    && PartPaths(part).Ok? && IsSorted(PartPaths(part).value)
  }

  /** The paths all parts list, in order. */
  function Assigned(parts: seq<Json>): seq<string> {
    if |parts| == 0 then []
    else (if PartPaths(parts[0]).Ok? then PartPaths(parts[0]).value else []) + Assigned(parts[1..])
  }

  function PartNames(parts: seq<Json>): seq<string> {
    if |parts| == 0 then []
    else
      var path := PortablePath(Field(parts[0], "path"));
      (if path.Ok? then [path.value] else []) + PartNames(parts[1..])
  }

  /** The last check of a view: every file is assigned, to one part only. */
  predicate Covers(parts: seq<Json>, files: set<string>) {
    HasNoRepeats(Assigned(parts)) && Elements(Assigned(parts)) == files
  }

  predicate ValidView(view: Json, names: set<string>, files: set<string>) {
    var parts := ListOf(Field(view, "parts"));
    && Field(view, "name").Str?
    && Field(view, "name").text != "" && Field(view, "name").text !in names
    && parts != []
    && (forall i :: 0 <= i < |parts| ==> ValidPart(parts[i]))
    && IsSorted(PartNames(parts)) && HasNoRepeats(PartNames(parts))
    && Covers(parts, files)
  }

  /** The loop of `_validate_archive_views`. */
  predicate ValidViews(views: seq<Json>, names: set<string>, files: set<string>) {
    |views| == 0
    || (ValidView(views[0], names, files) && ValidViews(views[1..], names + {Field(views[0], "name").text}, files))
  }

  predicate Validated(schema: string) {
    schema in {"fixture-manifest-v2", "fixture-manifest-v3", "fixture-manifest-v4"}
  }

  /** `load_manifest`: the paths of the files, in order. */
  function LoadManifest(manifest: Json): Result<seq<string>, Failure> {
    var schema, items := Field(manifest, "schema"), ListOf(Field(manifest, "files"));
    if !schema.Str? || schema.text !in SCHEMAS then Err(Fixture)
    else if Field(manifest, "provenance") != Provenance(SCHEMAS[schema.text]) then Err(Fixture)
    else if items == [] then Err(Fixture)
    else
      match PortablePaths(Fields(items, "path"))
      case Err(failure) => Err(failure)
      case Ok(paths) =>
        if !IsSorted(paths) || !HasNoRepeats(paths) then Err(Fixture)
        else if Validated(schema.text) && !(ListOf(Field(manifest, "archive_views")) != []
                && ValidViews(ListOf(Field(manifest, "archive_views")), {}, Elements(paths))) then Err(Fixture)
        else Ok(paths)
  }

  // ---------------------------------------------------------------- generating files

  /** What an item's recipe makes. */
  function Generate(library: Library, item: map<string, Json>): Result<Node, Failure> {
    var recipe := Get(item, "recipe");
    if recipe == Str("text") then
      var content := Get(item, "content");
      if content.Str? && |library.utf8(content.text)| <= MAX_TEXT_BYTES then Ok(File(library.utf8(content.text)))
      else Err(Fixture)
    else if recipe == Str("synthetic_png") then AsFile(SyntheticPng(library, item))
    else if recipe == Str("synthetic_padded_png") then AsFile(PaddedPng(library, item))
    else if recipe == Str("synthetic_isobmff") then AsFile(IsoBmff(item))
    else if recipe == Str("symlink") then
      match PortablePath(Get(item, "target"))
      case Err(failure) => Err(failure)
      case Ok(target) => Ok(Link(target))
    else Err(Fixture)
  }

  function AsFile(bytes: Result<seq<Byte>, Failure>): Result<Node, Failure> {
    match bytes
    case Err(failure) => Err(failure)
    case Ok(content) => Ok(File(content))
  }

  /** `_materialize_item`. */
  function MaterializeItem(library: Library, host: Host, tree: Tree, item: Json): Result<Tree, Failure> {
    if !item.Obj? then Err(Fixture)
    else
      match PortablePath(Get(item.members, "path"))
      case Err(failure) => Err(failure)
      case Ok(path) =>
        match Generate(library, item.members)
        case Err(failure) => Err(failure)
        case Ok(node) => if path in tree || !host.creatable(tree, path) then Err(FileSystem) else Ok(tree[path := node])
  }

  /** `_materialize_files`. */
  function MaterializeFiles(library: Library, host: Host, tree: Tree, items: seq<Json>): Result<Tree, Failure>
    decreases |items|
  {
    if |items| == 0 then Ok(tree)
    else
      match MaterializeItem(library, host, tree, items[0])
      case Err(failure) => Err(failure)
      case Ok(updated) => MaterializeFiles(library, host, updated, items[1..])
  }

  /** `materialize` without an archive view. */
  function DirectoryView(library: Library, host: Host, manifest: Json): Result<Tree, Failure> {
    match LoadManifest(manifest)
    case Err(failure) => Err(failure)
    case Ok(_) => MaterializeFiles(library, host, map[], ListOf(Field(manifest, "files")))
  }

  // ---------------------------------------------------------------- writing archives

  /** One round of `_write_archive`. */
  function ReadStaged(tree: Tree, raw: Json): Result<ZipEntry, Failure> {
    match PortablePath(raw)
    case Err(failure) => Err(failure)
    case Ok(path) =>
      if path !in tree || !tree[path].File? then Err(Fixture) else Ok(ZipEntry(path, tree[path].bytes))
  }

  function WriteArchive(tree: Tree, raws: seq<Json>, entries: seq<ZipEntry>): Result<seq<ZipEntry>, Failure> {
    if |raws| == 0 then Ok(entries)
    else
      match ReadStaged(tree, raws[0])
      case Err(failure) => Err(failure)
      case Ok(entry) => WriteArchive(tree, raws[1..], entries + [entry])
  }

  /** The archive's own path is created directly below the output directory. */
  predicate Creatable(host: Host, archives: seq<Archive>, path: string) {
    && |Parts(path)| == 1 && path != STAGING
    && (forall i :: 0 <= i < |archives| ==> archives[i].path != path)
    && host.creatable(map[], path)
  }

  function WritePart(host: Host, tree: Tree, archives: seq<Archive>, part: Json): Result<seq<Archive>, Failure> {
    if !Field(part, "files").Arr? then Err(Fixture)
    else
      match PortablePath(Field(part, "path"))
      case Err(failure) => Err(failure)
      case Ok(path) =>
        if !Creatable(host, archives, path) then Err(FileSystem)
        else
          match WriteArchive(tree, ListOf(Field(part, "files")), [])
          case Err(failure) => Err(failure)
          case Ok(entries) => Ok(archives + [Archive(path, entries)])
  }

  function WriteParts(host: Host, tree: Tree, archives: seq<Archive>, parts: seq<Json>): Result<seq<Archive>, Failure>
    decreases |parts|
  {
    if |parts| == 0 then Ok(archives)
    else
      match WritePart(host, tree, archives, parts[0])
      case Err(failure) => Err(failure)
      case Ok(updated) => WriteParts(host, tree, updated, parts[1..])
  }

  /** The first view with the name. */
  function SelectView(views: seq<Json>, name: string): Json {
    if |views| == 0 then Null
    else if Field(views[0], "name") == Str(name) then views[0]
    else SelectView(views[1..], name)
  }

  /** `materialize` with an archive view. */
  function ArchiveView(library: Library, host: Host, manifest: Json, name: string): Result<seq<Archive>, Failure> {
    match LoadManifest(manifest)
    case Err(failure) => Err(failure)
    case Ok(_) =>
      var selected := SelectView(ListOf(Field(manifest, "archive_views")), name);
      if !Field(selected, "parts").Arr? then Err(Fixture)
      else
        match MaterializeFiles(library, host, map[], ListOf(Field(manifest, "files")))
        case Err(failure) => Err(failure)
        case Ok(tree) => WriteParts(host, tree, [], ListOf(Field(selected, "parts")))
  }

  // ---------------------------------------------------------------- the property

  function AllEntries(archives: seq<Archive>): seq<ZipEntry> {
    if |archives| == 0 then [] else archives[0].entries + AllEntries(archives[1..])
  }

  function Names(entries: seq<ZipEntry>): (names: seq<string>)
    ensures |names| == |entries|
    ensures forall i :: 0 <= i < |names| ==> names[i] == entries[i].name
  {
    seq(|entries|, i requires 0 <= i < |entries| => entries[i].name)
  }

  /** The archives' entries, as a map from path to node. */
  function Union(entries: seq<ZipEntry>): Tree {
    if |entries| == 0 then map[]
    else
      var last := entries[|entries| - 1];
      Union(entries[..|entries| - 1])[last.name := File(last.bytes)]
  }

  /** No path occurs twice, in one part or in two, and together the parts are the directory. */
  ghost predicate Partitions(archives: seq<Archive>, directory: Tree) {
    Distinct(Names(AllEntries(archives))) && Union(AllEntries(archives)) == directory
  }

  ghost predicate Staged(tree: Tree, entries: seq<ZipEntry>) {
    forall i :: 0 <= i < |entries| ==> entries[i].name in tree && tree[entries[i].name] == File(entries[i].bytes)
  }

  lemma {:induction false} UnionOfStaged(tree: Tree, entries: seq<ZipEntry>)
    requires Staged(tree, entries)
    ensures Union(entries).Keys == Elements(Names(entries))
    ensures forall name :: name in Union(entries) ==> name in tree && Union(entries)[name] == tree[name]
    decreases |entries|
  {
    if |entries| > 0 {
      var count := |entries| - 1;
      var front := entries[..count];
      UnionOfStaged(tree, front);
      assert Names(entries) == Names(front) + [entries[count].name];
    }
  }

  /** Staged entries make up the whole tree exactly when their names do. */
  lemma UnionIsTree(tree: Tree, entries: seq<ZipEntry>)
    requires Staged(tree, entries)
    ensures Union(entries) == tree <==> Elements(Names(entries)) == tree.Keys
  {
    UnionOfStaged(tree, entries);
    hide Union, Names;
  }

  // ---------------------------------------------------------------- the generated tree

  lemma {:induction false} FilesMakeTheirPaths(library: Library, host: Host, tree: Tree, items: seq<Json>)
    requires MaterializeFiles(library, host, tree, items).Ok?
    ensures PortablePaths(Fields(items, "path")).Ok?
    ensures MaterializeFiles(library, host, tree, items).value.Keys
         == tree.Keys + Elements(PortablePaths(Fields(items, "path")).value)
    decreases |items|
  {
    hide PortablePath, Generate;
    if |items| > 0 {
      var updated := MaterializeItem(library, host, tree, items[0]).value;
      FilesMakeTheirPaths(library, host, updated, items[1..]);
      var paths, rest := PortablePaths(Fields(items, "path")), PortablePaths(Fields(items[1..], "path"));
      assert Fields(items, "path")[0] == Field(items[0], "path") && Fields(items, "path")[1..] == Fields(items[1..], "path");
      assert paths.value == [PortablePath(Field(items[0], "path")).value] + rest.value;
      ElementsFront(paths.value);
      assert paths.value[1..] == rest.value;
    }
  }

  lemma {:induction false} ArchiveEntriesAreStaged(tree: Tree, raws: seq<Json>, entries: seq<ZipEntry>)
    requires WriteArchive(tree, raws, entries).Ok? && Staged(tree, entries)
    ensures PortablePaths(raws).Ok?
    ensures var written := WriteArchive(tree, raws, entries).value;
      Staged(tree, written) && Names(written) == Names(entries) + PortablePaths(raws).value
    decreases |raws|
  {
    hide PortablePath;
    if |raws| > 0 {
      var entry := ReadStaged(tree, raws[0]).value;
      ArchiveEntriesAreStaged(tree, raws[1..], entries + [entry]);
      assert Names(entries + [entry]) == Names(entries) + [entry.name];
      Associative(Names(entries), [entry.name], PortablePaths(raws[1..]).value);
    }
  }

  lemma {:induction false} AllEntriesAppend(archives: seq<Archive>, last: Archive)
    ensures AllEntries(archives + [last]) == AllEntries(archives) + last.entries
  {
    if |archives| > 0 {
      assert (archives + [last])[1..] == archives[1..] + [last];
      AllEntriesAppend(archives[1..], last);
      Associative(archives[0].entries, AllEntries(archives[1..]), last.entries);
    } else {
      assert (archives + [last])[1..] == [];
    }
  }

  lemma StagedAppend(tree: Tree, a: seq<ZipEntry>, b: seq<ZipEntry>)
    requires Staged(tree, a) && Staged(tree, b)
    ensures Staged(tree, a + b) && Names(a + b) == Names(a) + Names(b)
  {
  }

  lemma PartIsStaged(host: Host, tree: Tree, archives: seq<Archive>, part: Json)
    requires WritePart(host, tree, archives, part).Ok? && Staged(tree, AllEntries(archives))
    ensures PartPaths(part).Ok?
    ensures var all := AllEntries(WritePart(host, tree, archives, part).value);
      Staged(tree, all) && Names(all) == Names(AllEntries(archives)) + PartPaths(part).value
  {
    hide PortablePath, Creatable, PortablePaths, AllEntries, WriteArchive, Staged, Names;
    var before, entries := AllEntries(archives), WriteArchive(tree, ListOf(Field(part, "files")), []).value;
    NoEntries(tree);
    ArchiveEntriesAreStaged(tree, ListOf(Field(part, "files")), []);
    AllEntriesAppend(archives, Archive(PortablePath(Field(part, "path")).value, entries));
    assert [] + PartPaths(part).value == PartPaths(part).value;
    StagedAppend(tree, before, entries);
  }

  lemma {:induction false} PartsAreStaged(host: Host, tree: Tree, archives: seq<Archive>, parts: seq<Json>)
    requires WriteParts(host, tree, archives, parts).Ok? && Staged(tree, AllEntries(archives))
    ensures var all := AllEntries(WriteParts(host, tree, archives, parts).value);
      Staged(tree, all) && Names(all) == Names(AllEntries(archives)) + Assigned(parts)
    decreases |parts|
  {
    hide WritePart, AllEntries, Names, Staged, PartPaths;
    if |parts| > 0 {
      var updated := WritePart(host, tree, archives, parts[0]).value;
      PartIsStaged(host, tree, archives, parts[0]);
      PartsAreStaged(host, tree, updated, parts[1..]);
      Associative(Names(AllEntries(archives)), PartPaths(parts[0]).value, Assigned(parts[1..]));
    } else {
      assert Names(AllEntries(archives)) + [] == Names(AllEntries(archives));
    }
  }

  // ---------------------------------------------------------------- views partition the fixture

  /** The parts of the view a name selects. */
  function SelectedParts(manifest: Json, name: string): seq<Json> {
    ListOf(Field(SelectView(ListOf(Field(manifest, "archive_views")), name), "parts"))
  }

  lemma WrittenPartsPartition(host: Host, tree: Tree, parts: seq<Json>)
    requires WriteParts(host, tree, [], parts).Ok?
    ensures Partitions(WriteParts(host, tree, [], parts).value, tree) <==> Covers(parts, tree.Keys)
  {
    hide WriteParts, AllEntries, Assigned, Elements, Union, Names, Distinct;
    var all := AllEntries(WriteParts(host, tree, [], parts).value);
    NoEntries(tree);
    PartsAreStaged(host, tree, [], parts);
    assert [] + Assigned(parts) == Assigned(parts);
    UnionIsTree(tree, all);
    DistinctSize(Names(all));
  }

  lemma NoEntries(tree: Tree)
    ensures AllEntries([]) == [] && Staged(tree, []) && Names([]) == []
  {
  }

  /** Whenever a view materializes, so does the directory, and the view's parts split it into
      disjoint pieces exactly when they list every file of the manifest once. */
  lemma ViewPartitionsExactlyWhenItCovers(library: Library, host: Host, manifest: Json, name: string)
    requires ArchiveView(library, host, manifest, name).Ok?
    ensures DirectoryView(library, host, manifest).Ok?
    ensures Partitions(ArchiveView(library, host, manifest, name).value, DirectoryView(library, host, manifest).value)
       <==> Covers(SelectedParts(manifest, name), Elements(LoadManifest(manifest).value))
  {
    hide Partitions, Covers, MaterializeFiles, Elements, WriteParts, SelectView, ValidViews, HasNoRepeats, IsSorted;
    var items := ListOf(Field(manifest, "files"));
    var tree := MaterializeFiles(library, host, map[], items).value;
    FilesMakeTheirPaths(library, host, map[], items);
    WrittenPartsPartition(host, tree, SelectedParts(manifest, name));
    assert tree.Keys == Elements(LoadManifest(manifest).value);
  }

  lemma {:induction false} SelectedIsValid(views: seq<Json>, names: set<string>, files: set<string>, name: string)
    requires ValidViews(views, names, files) && SelectView(views, name) != Null
    ensures Covers(ListOf(Field(SelectView(views, name), "parts")), files)
    decreases |views|
  {
    hide Covers, ValidPart;
    if |views| > 0 && Field(views[0], "name") != Str(name) {
      SelectedIsValid(views[1..], names + {Field(views[0], "name").text}, files, name);
    }
  }

  /** From schema version 2 on, every view that materializes is a partition of the directory view,
      and there is no symbolic link among the fixture's files. */
  lemma ValidatedViewsPartition(library: Library, host: Host, manifest: Json, name: string)
    requires ArchiveView(library, host, manifest, name).Ok?
    requires Field(manifest, "schema").Str? && Validated(Field(manifest, "schema").text)
    ensures DirectoryView(library, host, manifest).Ok?
    ensures var directory := DirectoryView(library, host, manifest).value;
      && Partitions(ArchiveView(library, host, manifest, name).value, directory)
      && forall path :: path in directory ==> directory[path].File?
  {
    hide ValidViews, Elements, MaterializeFiles, Covers, SelectView, WriteParts, Union, IsSorted, HasNoRepeats, Assigned;
    ViewPartitionsExactlyWhenItCovers(library, host, manifest, name);
    SelectedIsValid(ListOf(Field(manifest, "archive_views")), {}, Elements(LoadManifest(manifest).value), name);
    UnionHoldsFiles(AllEntries(ArchiveView(library, host, manifest, name).value));
  }

  lemma {:induction false} UnionHoldsFiles(entries: seq<ZipEntry>)
    ensures forall path :: path in Union(entries) ==> Union(entries)[path].File?
    decreases |entries|
  {
    if |entries| > 0 {
      UnionHoldsFiles(entries[..|entries| - 1]);
    }
  }

  // ---------------------------------------------------------------- version 1 manifests

  /** A version 1 manifest of one empty text file, with a view that has no parts. */
  function PartialManifest(): Json {
    Obj(map[
      "schema" := Str("fixture-manifest-v1"),
      "provenance" := Provenance("1"),
      "files" := Arr([TextItem("a")]),
      "archive_views" := Arr([EmptyView()])])
  }

  function TextItem(path: string): Json {
    Obj(map["path" := Str(path), "recipe" := Str("text"), "content" := Str("")])
  }

  function EmptyView(): Json {
    Obj(map["name" := Str("view"), "parts" := Arr([])])
  }

  lemma {:induction false} PlainSegments(text: string, current: string)
    requires '/' !in text
    ensures Segments(text, current) == [current + text]
    decreases |text|
  {
    if |text| > 0 {
      PlainSegments(text[1..], current + [text[0]]);
      assert (current + [text[0]]) + text[1..] == current + text;
    } else {
      assert current + text == current;
    }
  }

  predicate Plain(name: string) {
    IsNamed(name) && name != ".." && '/' !in name && '\\' !in name && '\0' !in name
  }

  lemma PlainNameIsItsPath(name: string)
    requires Plain(name)
    ensures Parts(name) == [name] && PortablePath(Str(name)) == Ok(name)
  {
    PlainSegments(name, "");
    assert "" + name == name;
    assert Root(name) == [];
    assert Filter([name], IsNamed) == [name] + Filter([], IsNamed);
    assert Parts(name) == [name];
    hide Parts, Root;
    assert !IsAbsolute(name) by {
      FirstPartShowsRoot(name);
    }
  }

  lemma PartialPaths()
    ensures PortablePaths(Fields([TextItem("a")], "path")) == Ok(["a"])
  {
    PlainNameIsItsPath("a");
    hide PortablePath;
    var raws := [Str("a")];
    assert Fields([TextItem("a")], "path") == raws;
    assert raws[1..] == [] && PortablePaths(raws[1..]) == Ok([]);
    assert ["a"] + [] == ["a"];
  }

  lemma OnePathIsSorted(path: string)
    ensures IsSorted([path]) && HasNoRepeats([path])
  {
    DistinctSize([path]);
  }

  lemma PartialManifestLoads()
    ensures LoadManifest(PartialManifest()) == Ok(["a"])
  {
    PartialPaths();
    OnePathIsSorted("a");
    hide PortablePaths, Fields, TextItem, Provenance, IsSorted, HasNoRepeats, EmptyView;
  }

  lemma PartialTree(library: Library, host: Host)
    requires library.utf8("") == [] && host.creatable(map[], "a")
    ensures MaterializeFiles(library, host, map[], [TextItem("a")]) == Ok(map["a" := File([])])
  {
    PlainNameIsItsPath("a");
    hide PortablePath;
    var tree: Tree := map[];
    assert MaterializeItem(library, host, tree, TextItem("a")) == Ok(tree["a" := File([])]);
    assert tree["a" := File([])] == map["a" := File([])];
    assert [TextItem("a")][1..] == [];
  }

  /** The views of a version 1 manifest are not validated: one that leaves a file out materializes,
      and is not a partition of the directory view. */
  lemma VersionOneViewsMayLeaveFilesOut(library: Library, host: Host)
    requires library.utf8("") == [] && host.creatable(map[], "a")
    ensures var manifest := PartialManifest();
      && ArchiveView(library, host, manifest, "view").Ok?
      && DirectoryView(library, host, manifest).Ok?
      && !Partitions(ArchiveView(library, host, manifest, "view").value, DirectoryView(library, host, manifest).value)
  {
    var manifest := PartialManifest();
    PartialManifestLoads();
    PartialTree(library, host);
    hide LoadManifest, MaterializeFiles, TextItem, Provenance;
    assert SelectView([EmptyView()], "view") == EmptyView();
    assert WriteParts(host, map["a" := File([])], [], []) == Ok([]);
    hide SelectView, WriteParts, EmptyView;
    assert ArchiveView(library, host, manifest, "view") == Ok([]);
    assert DirectoryView(library, host, manifest) == Ok(map["a" := File([])]);
    assert "a" !in Union([]);
  }

  // ---------------------------------------------------------------- a view that materializes

  function OnePart(): Json {
    Obj(map["path" := Str("p.zip"), "files" := Arr([Str("a")])])
  }

  function FullView(): Json {
    Obj(map["name" := Str("view"), "parts" := Arr([OnePart()])])
  }

  /** A version 2 manifest of one empty text file, with a view of one part that holds it. */
  function FullManifest(): Json {
    Obj(map[
      "schema" := Str("fixture-manifest-v2"),
      "provenance" := Provenance("2"),
      "files" := Arr([TextItem("a")]),
      "archive_views" := Arr([FullView()])])
  }

  lemma ZipName()
    ensures PortablePath(Str("p.zip")) == Ok("p.zip") && Parts("p.zip") == ["p.zip"] && IsRootZip("p.zip")
  {
    PlainNameIsItsPath("p.zip");
    hide Parts, PortablePath;
    LastDotOfZip();
    assert "p.zip"[1..] == ".zip";
  }

  lemma LastDotOfZip()
    ensures LastDot("p.zip") == 1
  {
    var name := "p.zip";
    assert name[..4] == "p.zi" && "p.zi"[..3] == "p.z" && "p.z"[..2] == "p.";
    assert LastDot("p.") == 1;
    assert LastDot("p.z") == 1;
    assert LastDot("p.zi") == 1;
  }

  lemma OnePathIsPortable()
    ensures PortablePaths([Str("a")]) == Ok(["a"])
  {
    PlainNameIsItsPath("a");
    hide PortablePath;
    var raws := [Str("a")];
    assert raws[1..] == [] && PortablePaths(raws[1..]) == Ok([]);
    assert ["a"] + [] == ["a"];
  }

  lemma PartIsValid()
    ensures ValidPart(OnePart()) && PartPaths(OnePart()) == Ok(["a"])
    ensures Assigned([OnePart()]) == ["a"] && PartNames([OnePart()]) == ["p.zip"]
  {
    ZipName();
    OnePathIsPortable();
    OnePathIsSorted("a");
    assert Field(OnePart(), "path") == Str("p.zip") && ListOf(Field(OnePart(), "files")) == [Str("a")];
    hide PortablePath, PortablePaths, IsRootZip, IsSorted, HasNoRepeats, OnePart;
    assert [OnePart()][1..] == [] && ["a"] + [] == ["a"] && ["p.zip"] + [] == ["p.zip"];
  }

  lemma OneViewIsValid(view: Json, files: set<string>, part: Json, name: string)
    requires Field(view, "name") == Str(name) && name != "" && ListOf(Field(view, "parts")) == [part]
    requires ValidPart(part) && IsSorted(PartNames([part])) && HasNoRepeats(PartNames([part])) && Covers([part], files)
    ensures ValidViews([view], {}, files)
  {
    hide Field, ListOf, ValidPart, PartNames, IsSorted, HasNoRepeats, Covers;
    assert ValidView(view, {}, files);
    hide ValidView;
    assert [view][1..] == [];
  }

  lemma ViewIsValid()
    ensures ValidViews([FullView()], {}, Elements(["a"]))
  {
    assert Field(FullView(), "name") == Str("view") && ListOf(Field(FullView(), "parts")) == [OnePart()];
    hide ValidViews, ValidPart, IsSorted, HasNoRepeats, Assigned, PartNames, OnePart, FullView, Field, ListOf, PartPaths;
    PartIsValid();
    OnePathIsSorted("a");
    OnePathIsSorted("p.zip");
    OneViewIsValid(FullView(), Elements(["a"]), OnePart(), "view");
  }

  lemma FullManifestLoads()
    ensures LoadManifest(FullManifest()) == Ok(["a"])
  {
    PartialPaths();
    OnePathIsSorted("a");
    ViewIsValid();
    hide PortablePaths, Fields, TextItem, Provenance, IsSorted, HasNoRepeats, FullView, ValidViews, Elements;
  }

  lemma OnePartWritten(host: Host, tree: Tree, part: Json, archive: Archive)
    requires WritePart(host, tree, [], part) == Ok([archive])
    ensures WriteParts(host, tree, [], [part]) == Ok([archive])
  {
    hide WritePart;
    assert [part][1..] == [];
  }

  lemma PartIsWritten(host: Host, tree: Tree)
    requires tree == map["a" := File([])] && host.creatable(map[], "p.zip")
    ensures WriteParts(host, tree, [], [OnePart()]) == Ok([Archive("p.zip", [ZipEntry("a", [])])])
  {
    assert Field(OnePart(), "path") == Str("p.zip") && Field(OnePart(), "files") == Arr([Str("a")]);
    assert "a" in tree && tree["a"] == File([]);
    hide PortablePath, Parts, IsRootZip, OnePart, Field, WriteArchive, Creatable, WriteParts;
    ZipName();
    PlainNameIsItsPath("a");
    assert ReadStaged(tree, Str("a")) == Ok(ZipEntry("a", []));
    hide ReadStaged;
    OneEntryWritten(tree);
    CreatableHere(host);
    assert [] + [Archive("p.zip", [ZipEntry("a", [])])] == [Archive("p.zip", [ZipEntry("a", [])])];
    OnePartWritten(host, tree, OnePart(), Archive("p.zip", [ZipEntry("a", [])]));
  }

  lemma CreatableHere(host: Host)
    requires host.creatable(map[], "p.zip")
    ensures Creatable(host, [], "p.zip")
  {
    ZipName();
    hide Parts, IsRootZip, PortablePath;
    assert "p.zip"[0] == 'p' && STAGING[0] == '.';
  }

  lemma OneEntryWritten(tree: Tree)
    requires ReadStaged(tree, Str("a")) == Ok(ZipEntry("a", []))
    ensures WriteArchive(tree, [Str("a")], []) == Ok([ZipEntry("a", [])])
  {
    hide ReadStaged;
    assert [Str("a")][1..] == [] && [] + [ZipEntry("a", [])] == [ZipEntry("a", [])];
  }

  /** A validated view can materialize. */
  lemma SomeValidatedViewMaterializes(library: Library, host: Host)
    requires library.utf8("") == [] && host.creatable(map[], "a") && host.creatable(map[], "p.zip")
    ensures Field(FullManifest(), "schema").Str? && Validated(Field(FullManifest(), "schema").text)
    ensures ArchiveView(library, host, FullManifest(), "view") == Ok([Archive("p.zip", [ZipEntry("a", [])])])
  {
    FullManifestLoads();
    PartialTree(library, host);
    PartIsWritten(host, map["a" := File([])]);
    assert Field(FullView(), "name") == Str("view") && Field(FullView(), "parts") == Arr([OnePart()]);
    hide LoadManifest, MaterializeFiles, TextItem, Provenance, WriteParts, OnePart, FullView;
    assert SelectView([FullView()], "view") == FullView();
  }

  // ---------------------------------------------------------------- the loops

  /** The loop of `_validate_archive_views` (lines 74-103). */
  method ValidateArchiveViews(views: seq<Json>, files: set<string>) returns (valid: bool)
    ensures valid <==> views != [] && ValidViews(views, {}, files)
  {
    hide ValidView;
    if views == [] {
      return false;
    }
    var names: set<string> := {};
    assert views[0..] == views;
    for i := 0 to |views|
      invariant ValidViews(views, {}, files) <==> ValidViews(views[i..], names, files)
    {
      assert views[i..][1..] == views[i + 1..];
      if !ValidView(views[i], names, files) {
        return false;
      }
      names := names + {NameOf(views[i], names, files)};
    }
    return true;
  }

  function NameOf(view: Json, names: set<string>, files: set<string>): (name: string)
    requires ValidView(view, names, files)
    ensures Field(view, "name").Str? && name == Field(view, "name").text
  {
    Field(view, "name").text
  }

  /** `_materialize_files` (lines 183-190). */
  method MaterializeAll(library: Library, host: Host, items: seq<Json>) returns (r: Result<Tree, Failure>)
    ensures r == MaterializeFiles(library, host, map[], items)
  {
    hide MaterializeItem;
    var tree: Tree := map[];
    assert items[0..] == items;
    for i := 0 to |items|
      invariant MaterializeFiles(library, host, map[], items) == MaterializeFiles(library, host, tree, items[i..])
    {
      assert items[i..][1..] == items[i + 1..];
      var updated := MaterializeItem(library, host, tree, items[i]);
      if updated.Err? {
        return Err(updated.error);
      }
      tree := updated.value;
    }
    return Ok(tree);
  }

  /** `_write_archive` (lines 193-204). */
  method WriteEntries(tree: Tree, raws: seq<Json>) returns (r: Result<seq<ZipEntry>, Failure>)
    ensures r == WriteArchive(tree, raws, [])
  {
    hide ReadStaged;
    var entries: seq<ZipEntry> := [];
    assert raws[0..] == raws;
    for i := 0 to |raws|
      invariant WriteArchive(tree, raws, []) == WriteArchive(tree, raws[i..], entries)
    {
      assert raws[i..][1..] == raws[i + 1..];
      var entry := ReadStaged(tree, raws[i]);
      if entry.Err? {
        return Err(entry.error);
      }
      entries := entries + [entry.value];
    }
    return Ok(entries);
  }

  /** The loop over the parts (lines 227-231). */
  method WriteAllParts(host: Host, tree: Tree, parts: seq<Json>) returns (r: Result<seq<Archive>, Failure>)
    ensures r == WriteParts(host, tree, [], parts)
  {
    hide Creatable, PortablePath, WriteArchive;
    var archives: seq<Archive> := [];
    assert parts[0..] == parts;
    for i := 0 to |parts|
      invariant WriteParts(host, tree, [], parts) == WriteParts(host, tree, archives, parts[i..])
    {
      assert parts[i..][1..] == parts[i + 1..];
      var path := PortablePath(Field(parts[i], "path"));
      if !Field(parts[i], "files").Arr? {
        return Err(Fixture);
      }
      if path.Err? {
        return Err(path.error);
      }
      if !Creatable(host, archives, path.value) {
        return Err(FileSystem);
      }
      var entries := WriteEntries(tree, ListOf(Field(parts[i], "files")));
      if entries.Err? {
        return Err(entries.error);
      }
      archives := archives + [Archive(path.value, entries.value)];
    }
    return Ok(archives);
  }

  /** `materialize` with an archive view (lines 207-233): what it leaves is a partition of the
      directory view whenever the manifest's views are validated. */
  method MaterializeView(library: Library, host: Host, manifest: Json, name: string) returns (r: Result<seq<Archive>, Failure>)
    ensures r == ArchiveView(library, host, manifest, name)
    ensures r.Ok? && Field(manifest, "schema").Str? && Validated(Field(manifest, "schema").text) ==>
      DirectoryView(library, host, manifest).Ok? && Partitions(r.value, DirectoryView(library, host, manifest).value)
  {
    hide LoadManifest, MaterializeFiles, WriteParts, SelectView, Partitions, DirectoryView;
    var loaded := LoadManifest(manifest);
    if loaded.Err? {
      return Err(loaded.error);
    }
    var selected := SelectView(ListOf(Field(manifest, "archive_views")), name);
    if !Field(selected, "parts").Arr? {
      return Err(Fixture);
    }
    var staging := MaterializeAll(library, host, ListOf(Field(manifest, "files")));
    if staging.Err? {
      return Err(staging.error);
    }
    r := WriteAllParts(host, staging.value, ListOf(Field(selected, "parts")));
    if r.Ok? && Field(manifest, "schema").Str? && Validated(Field(manifest, "schema").text) {
      ValidatedViewsPartition(library, host, manifest, name);
    }
  }
}

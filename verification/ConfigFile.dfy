/** The configuration file of crates/immich-cli/src/config.rs. The TOML parser is a library function;
    what becomes of its tables is not. */
module ConfigFile {
  import opened Configuration
  import opened Remote
  import opened Settings
  import opened SourceOptions
  import opened Wrappers

  datatype Toml =
    | TomlInteger(number: int)
    | TomlBoolean(truth: bool)
    | TomlString(text: string)
    | TomlArray(items: seq<Toml>)
    | TomlTable(table: map<string, Toml>)
    | TomlOther

  type Table = map<string, Toml>

  /** What the file system says about a path: its metadata, and its text when that is UTF-8. */
  datatype FileEntry = FileEntry(regular: bool, symlink: bool, len: nat, text: Option<string>)

  /** What the layers are read from: the file system, a TOML parser and a JSON parser for lists of paths. */
  datatype Readers = Readers(
    file: Argument -> Option<FileEntry>,
    toml: string -> Option<Table>,
    json: string -> Option<seq<Argument>>)

  const CONFIG_SCHEMA_VERSION := 1
  const MAX_CONFIG_BYTES := 1024 * 1024

  const TOP_KEYS := {
    "schema_version", "immich", "scan", "apple_photos", "picasa", "upload", "archive", "migration"}
  const IMMICH_KEYS := {
    "ca_certificate", "server"}
  const SCAN_KEYS := {
    "buffer_bytes", "case_sensitive", "compression_ratio_grace_bytes", "inputs", "label", "max_archive_entry_bytes",
    "max_archives", "max_compression_ratio", "max_directory_entries", "max_entries", "max_path_bytes", "source"}
  const APPLE_KEYS := {
    "album_mode", "album_path_joiner"}
  const PICASA_KEYS := {
    "albums", "filename_date"}
  const UPLOAD_KEYS := {
    "checkpoint", "concurrency", "dry_run", "max_attempts_per_operation", "max_retries_per_run", "plan",
    "retry_base_delay_ms", "retry_delay_cap_ms", "source", "verification_buffer_bytes"}
  const ARCHIVE_KEYS := {
    "destination", "include_trashed", "manifest", "max_assets", "page_size", "selection"}
  const MIGRATION_KEYS := {
    "checkpoint", "destination_server", "dry_run", "max_album_memberships", "max_albums", "max_asset_bytes",
    "max_assets", "max_total_bytes", "page_size", "plan", "source_server"}

  // ---------------------------------------------------------------- typed values

  const INVALID := Usage("invalid or unknown TOML configuration")

  function NumberAt(table: Table, key: string, max: nat): Result<Option<nat>, Usage> {
    if key !in table then Ok(None)
    else if table[key].TomlInteger? && 0 <= table[key].number <= max then Ok(Some(table[key].number))
    else Err(INVALID)
  }

  function FlagAt(table: Table, key: string): Result<Option<bool>, Usage> {
    if key !in table then Ok(None)
    else if table[key].TomlBoolean? then Ok(Some(table[key].truth))
    else Err(INVALID)
  }

  function TextAt(table: Table, key: string): Result<Option<string>, Usage> {
    if key !in table then Ok(None)
    else if table[key].TomlString? then Ok(Some(table[key].text))
    else Err(INVALID)
  }

  function PathAt(table: Table, key: string): Result<Option<Argument>, Usage> {
    var text :- TextAt(table, key);
    Ok(if text.Some? then Some(Unicode(text.value)) else None)
  }

  function PathsOf(items: seq<Toml>): Option<seq<Argument>> {
    if |items| == 0 then Some([])
    else if !items[0].TomlString? then None
    else
      var rest := PathsOf(items[1..]);
      if rest.None? then None else Some([Unicode(items[0].text)] + rest.value)
  }

  function PathsAt(table: Table, key: string): Result<Option<seq<Argument>>, Usage> {
    if key !in table then Ok(None)
    else if table[key].TomlArray? && PathsOf(table[key].items).Some? then Ok(PathsOf(table[key].items))
    else Err(INVALID)
  }

  /** A section, empty when it is missing, without unknown keys. */
  function SectionAt(document: Table, name: string, known: set<string>): Result<Table, Usage> {
    if name !in document then Ok(map[])
    else if document[name].TomlTable? && document[name].table.Keys <= known then Ok(document[name].table)
    else Err(INVALID)
  }

  // ---------------------------------------------------------------- the sections

  function ParseImmich(table: Table): Result<ImmichLayer, Usage> {
    var server :- TextAt(table, "server");
    var caCertificate :- PathAt(table, "ca_certificate");
    Ok(ImmichLayer(server, caCertificate))
  }

  function ParseSource(table: Table): Result<SourceLayer, Usage> {
    var sourceLabel :- TextAt(table, "label");
    var source :- PathAt(table, "source");
    var inputs :- PathsAt(table, "inputs");
    Ok(SourceLayer(sourceLabel, source, inputs))
  }

  function ParseScan(table: Table): Result<ScanLayer, Usage> {
    var bufferBytes :- NumberAt(table, "buffer_bytes", U64_MAX);
    var maxEntries :- NumberAt(table, "max_entries", U64_MAX);
    var maxDirectoryEntries :- NumberAt(table, "max_directory_entries", U64_MAX);
    var maxPathBytes :- NumberAt(table, "max_path_bytes", U64_MAX);
    var caseSensitive :- FlagAt(table, "case_sensitive");
    Ok(ScanLayer(bufferBytes, maxEntries, maxDirectoryEntries, maxPathBytes, caseSensitive))
  }

  function ParseLimits(table: Table): Result<LimitLayer, Usage> {
    var maxArchives :- NumberAt(table, "max_archives", U64_MAX);
    var maxArchiveEntryBytes :- NumberAt(table, "max_archive_entry_bytes", U64_MAX);
    var maxCompressionRatio :- NumberAt(table, "max_compression_ratio", U64_MAX);
    var compressionRatioGraceBytes :- NumberAt(table, "compression_ratio_grace_bytes", U64_MAX);
    Ok(LimitLayer(maxArchives, maxArchiveEntryBytes, maxCompressionRatio, compressionRatioGraceBytes))
  }

  function ParseAlbums(table: Table): Result<AlbumLayer, Usage> {
    var mode :- TextAt(table, "album_mode");
    var pathJoiner :- TextAt(table, "album_path_joiner");
    Ok(AlbumLayer(mode, pathJoiner))
  }

  function ParsePicasa(table: Table): Result<PicasaLayer, Usage> {
    var albums :- FlagAt(table, "albums");
    var filenameDate :- FlagAt(table, "filename_date");
    Ok(PicasaLayer(albums, filenameDate))
  }

  function ParseUpload(table: Table): Result<UploadLayer, Usage> {
    var plan :- PathAt(table, "plan");
    var source :- PathAt(table, "source");
    var checkpoint :- PathAt(table, "checkpoint");
    var dryRun :- FlagAt(table, "dry_run");
    Ok(UploadLayer(plan, source, checkpoint, dryRun))
  }

  function ParseExecution(table: Table): Result<ExecutionLayer, Usage> {
    var verificationBufferBytes :- NumberAt(table, "verification_buffer_bytes", U64_MAX);
    var concurrency :- NumberAt(table, "concurrency", U64_MAX);
    var maxAttempts :- NumberAt(table, "max_attempts_per_operation", U32_MAX);
    var maxRetries :- NumberAt(table, "max_retries_per_run", U32_MAX);
    var retryBaseDelay :- NumberAt(table, "retry_base_delay_ms", U64_MAX);
    var retryDelayCap :- NumberAt(table, "retry_delay_cap_ms", U64_MAX);
    Ok(ExecutionLayer(verificationBufferBytes, concurrency, maxAttempts, maxRetries, retryBaseDelay, retryDelayCap))
  }

  function ParseArchive(table: Table): Result<ArchiveLayer, Usage> {
    var selection :- TextAt(table, "selection");
    var includeTrashed :- FlagAt(table, "include_trashed");
    var pageSize :- NumberAt(table, "page_size", U64_MAX);
    var maxAssets :- NumberAt(table, "max_assets", U64_MAX);
    var manifest :- PathAt(table, "manifest");
    var destination :- PathAt(table, "destination");
    Ok(ArchiveLayer(selection, includeTrashed, pageSize, maxAssets, manifest, destination))
  }

  function ParseServers(table: Table): Result<MigrationServers, Usage> {
    var source :- TextAt(table, "source_server");
    var destination :- TextAt(table, "destination_server");
    Ok(MigrationServers(source, destination))
  }

  function ParseMigrationLimits(table: Table): Result<MigrationLimits, Usage> {
    var pageSize :- NumberAt(table, "page_size", U64_MAX);
    var maxAssets :- NumberAt(table, "max_assets", U64_MAX);
    var maxAlbums :- NumberAt(table, "max_albums", U64_MAX);
    var maxAlbumMemberships :- NumberAt(table, "max_album_memberships", U64_MAX);
    var maxAssetBytes :- NumberAt(table, "max_asset_bytes", U64_MAX);
    var maxTotalBytes :- NumberAt(table, "max_total_bytes", U64_MAX);
    Ok(MigrationLimits(pageSize, maxAssets, maxAlbums, maxAlbumMemberships, maxAssetBytes, maxTotalBytes))
  }

  function ParseMigrationFiles(table: Table): Result<MigrationFiles, Usage> {
    var plan :- PathAt(table, "plan");
    var checkpoint :- PathAt(table, "checkpoint");
    var dryRun :- FlagAt(table, "dry_run");
    Ok(MigrationFiles(plan, checkpoint, dryRun))
  }

  function ParseMigration(table: Table): Result<MigrationLayer, Usage> {
    var servers :- ParseServers(table);
    var limits :- ParseMigrationLimits(table);
    var files :- ParseMigrationFiles(table);
    Ok(MigrationLayer(servers, limits, files))
  }

  /** The tables of a file, one for each section. */
  datatype Sections = Sections(
    immich: Table,
    scan: Table,
    apple: Table,
    picasa: Table,
    upload: Table,
    archive: Table,
    migration: Table)

  function ReadSections(document: Table): Result<Sections, Usage> {
    var immich :- SectionAt(document, "immich", IMMICH_KEYS);
    var scan :- SectionAt(document, "scan", SCAN_KEYS);
    var apple :- SectionAt(document, "apple_photos", APPLE_KEYS);
    var picasa :- SectionAt(document, "picasa", PICASA_KEYS);
    var upload :- SectionAt(document, "upload", UPLOAD_KEYS);
    var archive :- SectionAt(document, "archive", ARCHIVE_KEYS);
    var migration :- SectionAt(document, "migration", MIGRATION_KEYS);
    Ok(Sections(immich, scan, apple, picasa, upload, archive, migration))
  }

  /** The mapping from the sections to the flat configuration. */
  function FromSections(sections: Sections): Result<Effective, Usage> {
    var immich :- ParseImmich(sections.immich);
    var source :- ParseSource(sections.scan);
    var scan :- ParseScan(sections.scan);
    var limits :- ParseLimits(sections.scan);
    var albums :- ParseAlbums(sections.apple);
    var picasa :- ParsePicasa(sections.picasa);
    var upload :- ParseUpload(sections.upload);
    var execution :- ParseExecution(sections.upload);
    var archive :- ParseArchive(sections.archive);
    var migration :- ParseMigration(sections.migration);
    Ok(Effective(immich, source, scan, limits, albums, picasa, upload, execution, archive, migration))
  }

  function LoadDocument(document: Table): Result<Effective, Usage> {
    if !(document.Keys <= TOP_KEYS) || "schema_version" !in document then Err(INVALID)
    else
      var sections :- ReadSections(document);
      var config :- FromSections(sections);
      if document["schema_version"] != TomlInteger(CONFIG_SCHEMA_VERSION) then Err(Usage("unsupported configuration schema"))
      else Ok(config)
  }

  /** The parsed file, when it is a bounded regular file of valid TOML. */
  function ReadDocument(readers: Readers, path: Argument): Result<Table, Usage> {
    var entry := readers.file(path);
    if entry.None? then Err(Usage("cannot read configuration file"))
    else if !entry.value.regular || entry.value.symlink || entry.value.len == 0 || entry.value.len > MAX_CONFIG_BYTES then
      Err(Usage("configuration must be a bounded regular file"))
    else if entry.value.text.None? then Err(Usage("configuration must be valid UTF-8"))
    else
      var document := readers.toml(entry.value.text.value);
      if document.None? then Err(INVALID) else Ok(document.value)
  }

  /** `load_file`. */
  function LoadFile(readers: Readers, path: Argument): Result<Effective, Usage> {
    var document :- ReadDocument(readers, path);
    LoadDocument(document)
  }

  // ---------------------------------------------------------------- every key is kept

  /** The value a table gives to a setting of a kind. */
  function TableValue(table: Table, name: string, kind: Kind): Option<Value> {
    if name !in table then None
    else
      match kind
      case NumberKind(max) =>
        if table[name].TomlInteger? && 0 <= table[name].number <= max then Some(Number(table[name].number)) else None
      case FlagKind => if table[name].TomlBoolean? then Some(Flag(table[name].truth)) else None
      case TextKind => if table[name].TomlString? then Some(Text(table[name].text)) else None
      case PathKind => if table[name].TomlString? then Some(Path(Unicode(table[name].text))) else None
      case ModeKind => if table[name].TomlString? then ParseText(ModeKind, table[name].text) else None
  }

  /** The value a file gives to a key. */
  function FileValue(document: Table, key: Key, kind: Kind): Option<Value> {
    if key.section in document && document[key.section].TomlTable?
    then TableValue(document[key.section].table, key.name, kind)
    else None
  }

  function FileSetting(document: Table, slot: Slot): Option<Value> {
    match KeyOf(slot)
    case None => None
    case Some(key) => FileValue(document, key, KindOf(slot))
  }

  lemma NumberKept(table: Table, key: string, max: nat)
    ensures var r := NumberAt(table, key, max); r.Ok? ==> AsNumber(r.value) == TableValue(table, key, NumberKind(max))
  {
  }

  lemma FlagKept(table: Table, key: string)
    ensures var r := FlagAt(table, key); r.Ok? ==> AsFlag(r.value) == TableValue(table, key, FlagKind)
  {
  }

  lemma TextKept(table: Table, key: string)
    ensures var r := TextAt(table, key); r.Ok? ==> AsText(r.value) == TableValue(table, key, TextKind)
  {
  }

  lemma ModeKept(table: Table, key: string)
    ensures var r := TextAt(table, key); r.Ok? ==> AsMode(r.value) == TableValue(table, key, ModeKind)
  {
  }

  lemma PathKept(table: Table, key: string)
    ensures var r := PathAt(table, key); r.Ok? ==> AsPath(r.value) == TableValue(table, key, PathKind)
  {
  }

  lemma SectionKept(document: Table, name: string, known: set<string>, key: Key, kind: Kind)
    requires key.section == name && SectionAt(document, name, known).Ok?
    ensures FileValue(document, key, kind) == TableValue(SectionAt(document, name, known).value, key.name, kind)
  {
  }

  /** The value the sections give to a key. */
  function SectionValue(sections: Sections, key: Key, kind: Kind): Option<Value> {
    if key.section == "immich" then TableValue(sections.immich, key.name, kind)
    else if key.section == "scan" then TableValue(sections.scan, key.name, kind)
    else if key.section == "apple_photos" then TableValue(sections.apple, key.name, kind)
    else if key.section == "picasa" then TableValue(sections.picasa, key.name, kind)
    else if key.section == "upload" then TableValue(sections.upload, key.name, kind)
    else if key.section == "archive" then TableValue(sections.archive, key.name, kind)
    else TableValue(sections.migration, key.name, kind)
  }

  predicate IsSection(name: string) {
    name in {"immich", "scan", "apple_photos", "picasa", "upload", "archive", "migration"}
  }

  lemma SectionsKept(document: Table, key: Key, kind: Kind)
    requires ReadSections(document).Ok? && IsSection(key.section)
    ensures FileValue(document, key, kind) == SectionValue(ReadSections(document).value, key, kind)
  {
    hide TableValue, SectionAt;
    if key.section == "immich" {
      SectionKept(document, "immich", IMMICH_KEYS, key, kind);
    } else if key.section == "scan" {
      SectionKept(document, "scan", SCAN_KEYS, key, kind);
    } else if key.section == "apple_photos" {
      SectionKept(document, "apple_photos", APPLE_KEYS, key, kind);
    } else if key.section == "picasa" {
      SectionKept(document, "picasa", PICASA_KEYS, key, kind);
    } else if key.section == "upload" {
      SectionKept(document, "upload", UPLOAD_KEYS, key, kind);
    } else if key.section == "archive" {
      SectionKept(document, "archive", ARCHIVE_KEYS, key, kind);
    } else {
      SectionKept(document, "migration", MIGRATION_KEYS, key, kind);
    }
  }

  /** A setting is what the sections have under its key. */
  predicate IsKept(sections: Sections, config: Effective, slot: Slot) {
    match KeyOf(slot)
    case None => Configured(config, slot) == None
    case Some(key) => IsSection(key.section) && Configured(config, slot) == SectionValue(sections, key, KindOf(slot))
  }

  predicate OtherIsKept(sections: Sections, config: Effective, slot: OtherSlot) {
    && IsSection(OtherKey(slot).section)
    && ConfiguredOther(config, slot) == SectionValue(sections, OtherKey(slot), OtherKind(slot))
  }

  lemma ScanKept(sections: Sections, config: Effective, slot: Slot)
    requires ParseScan(sections.scan) == Ok(config.scan)
    requires slot in {BufferBytes, MaxEntries, MaxDirectoryEntries, MaxPathBytes, CaseSensitive}
    ensures IsKept(sections, config, slot)
  {
    hide TableValue, NumberAt, FlagAt, TextAt, PathAt;
    match slot {
      case BufferBytes => NumberKept(sections.scan, "buffer_bytes", U64_MAX);
      case MaxEntries => NumberKept(sections.scan, "max_entries", U64_MAX);
      case MaxDirectoryEntries => NumberKept(sections.scan, "max_directory_entries", U64_MAX);
      case MaxPathBytes => NumberKept(sections.scan, "max_path_bytes", U64_MAX);
      case CaseSensitive => FlagKept(sections.scan, "case_sensitive");
    }
  }

  lemma LimitsKept(sections: Sections, config: Effective, slot: Slot)
    requires ParseLimits(sections.scan) == Ok(config.limits)
    requires slot in {MaxArchives, MaxArchiveEntryBytes, MaxCompressionRatio, CompressionRatioGraceBytes}
    ensures IsKept(sections, config, slot)
  {
    hide TableValue, NumberAt, FlagAt, TextAt, PathAt;
    match slot {
      case MaxArchives => NumberKept(sections.scan, "max_archives", U64_MAX);
      case MaxArchiveEntryBytes => NumberKept(sections.scan, "max_archive_entry_bytes", U64_MAX);
      case MaxCompressionRatio => NumberKept(sections.scan, "max_compression_ratio", U64_MAX);
      case CompressionRatioGraceBytes => NumberKept(sections.scan, "compression_ratio_grace_bytes", U64_MAX);
    }
  }

  lemma AlbumsKept(sections: Sections, config: Effective, slot: Slot)
    requires ParseAlbums(sections.apple) == Ok(config.albums)
    requires slot in {AlbumModeSlot, AlbumPathJoiner}
    ensures IsKept(sections, config, slot)
  {
    hide TableValue, NumberAt, FlagAt, TextAt, PathAt;
    match slot {
      case AlbumModeSlot => ModeKept(sections.apple, "album_mode");
      case AlbumPathJoiner => TextKept(sections.apple, "album_path_joiner");
    }
  }

  lemma PicasaKept(sections: Sections, config: Effective, slot: Slot)
    requires ParsePicasa(sections.picasa) == Ok(config.picasa)
    requires slot in {PicasaAlbums, FilenameDate}
    ensures IsKept(sections, config, slot)
  {
    hide TableValue, NumberAt, FlagAt, TextAt, PathAt;
    match slot {
      case PicasaAlbums => FlagKept(sections.picasa, "albums");
      case FilenameDate => FlagKept(sections.picasa, "filename_date");
    }
  }

  lemma ExecutionKept(sections: Sections, config: Effective, slot: Slot)
    requires ParseExecution(sections.upload) == Ok(config.execution)
    requires slot in {VerificationBufferBytes, Concurrency, MaxAttempts, MaxRetries, RetryBaseDelay, RetryDelayCap}
    ensures IsKept(sections, config, slot)
  {
    hide TableValue, NumberAt, FlagAt, TextAt, PathAt;
    match slot {
      case VerificationBufferBytes => NumberKept(sections.upload, "verification_buffer_bytes", U64_MAX);
      case Concurrency => NumberKept(sections.upload, "concurrency", U64_MAX);
      case MaxAttempts => NumberKept(sections.upload, "max_attempts_per_operation", U32_MAX);
      case MaxRetries => NumberKept(sections.upload, "max_retries_per_run", U32_MAX);
      case RetryBaseDelay => NumberKept(sections.upload, "retry_base_delay_ms", U64_MAX);
      case RetryDelayCap => NumberKept(sections.upload, "retry_delay_cap_ms", U64_MAX);
    }
  }

  lemma UploadKept(sections: Sections, config: Effective, slot: Slot)
    requires ParseUpload(sections.upload) == Ok(config.upload)
    requires slot in {Plan, Checkpoint, DryRun}
    ensures IsKept(sections, config, slot)
  {
    hide TableValue, NumberAt, FlagAt, TextAt, PathAt;
    match slot {
      case Plan => PathKept(sections.upload, "plan");
      case Checkpoint => PathKept(sections.upload, "checkpoint");
      case DryRun => FlagKept(sections.upload, "dry_run");
    }
  }

  lemma ImmichKept(sections: Sections, config: Effective, slot: Slot)
    requires ParseImmich(sections.immich) == Ok(config.immich)
    requires slot in {ServerSlot, CaCertificate}
    ensures IsKept(sections, config, slot)
  {
    hide TableValue, NumberAt, FlagAt, TextAt, PathAt;
    match slot {
      case ServerSlot => TextKept(sections.immich, "server");
      case CaCertificate => PathKept(sections.immich, "ca_certificate");
    }
  }

  lemma SourceKept(sections: Sections, config: Effective, slot: OtherSlot)
    requires ParseSource(sections.scan) == Ok(config.source)
    requires slot in {SourceLabel, SourcePath}
    ensures OtherIsKept(sections, config, slot)
  {
    hide TableValue, NumberAt, FlagAt, TextAt, PathAt;
    match slot {
      case SourceLabel => TextKept(sections.scan, "label");
      case SourcePath => PathKept(sections.scan, "source");
    }
  }

  lemma ArchiveKept(sections: Sections, config: Effective, slot: OtherSlot)
    requires ParseArchive(sections.archive) == Ok(config.archive)
    requires slot in {ArchiveSelection, ArchiveIncludeTrashed, ArchivePageSize, ArchiveMaxAssets, ArchiveManifest, ArchiveDestination}
    ensures OtherIsKept(sections, config, slot)
  {
    hide TableValue, NumberAt, FlagAt, TextAt, PathAt;
    match slot {
      case ArchiveSelection => TextKept(sections.archive, "selection");
      case ArchiveIncludeTrashed => FlagKept(sections.archive, "include_trashed");
      case ArchivePageSize => NumberKept(sections.archive, "page_size", U64_MAX);
      case ArchiveMaxAssets => NumberKept(sections.archive, "max_assets", U64_MAX);
      case ArchiveManifest => PathKept(sections.archive, "manifest");
      case ArchiveDestination => PathKept(sections.archive, "destination");
    }
  }

  lemma ServersKept(sections: Sections, config: Effective, slot: OtherSlot)
    requires ParseServers(sections.migration) == Ok(config.migration.servers)
    requires slot in {MigrationSourceServer, MigrationDestinationServer}
    ensures OtherIsKept(sections, config, slot)
  {
    hide TableValue, NumberAt, FlagAt, TextAt, PathAt;
    match slot {
      case MigrationSourceServer => TextKept(sections.migration, "source_server");
      case MigrationDestinationServer => TextKept(sections.migration, "destination_server");
    }
  }

  lemma MigrationLimitsKept(sections: Sections, config: Effective, slot: OtherSlot)
    requires ParseMigrationLimits(sections.migration) == Ok(config.migration.limits)
    requires slot in {MigrationPageSize, MigrationMaxAssets, MigrationMaxAlbums, MigrationMaxAlbumMemberships, MigrationMaxAssetBytes, MigrationMaxTotalBytes}
    ensures OtherIsKept(sections, config, slot)
  {
    hide TableValue, NumberAt, FlagAt, TextAt, PathAt;
    match slot {
      case MigrationPageSize => NumberKept(sections.migration, "page_size", U64_MAX);
      case MigrationMaxAssets => NumberKept(sections.migration, "max_assets", U64_MAX);
      case MigrationMaxAlbums => NumberKept(sections.migration, "max_albums", U64_MAX);
      case MigrationMaxAlbumMemberships => NumberKept(sections.migration, "max_album_memberships", U64_MAX);
      case MigrationMaxAssetBytes => NumberKept(sections.migration, "max_asset_bytes", U64_MAX);
      case MigrationMaxTotalBytes => NumberKept(sections.migration, "max_total_bytes", U64_MAX);
    }
  }

  lemma MigrationFilesKept(sections: Sections, config: Effective, slot: OtherSlot)
    requires ParseMigrationFiles(sections.migration) == Ok(config.migration.files)
    requires slot in {MigrationPlan, MigrationCheckpoint, MigrationDryRun}
    ensures OtherIsKept(sections, config, slot)
  {
    hide TableValue, NumberAt, FlagAt, TextAt, PathAt;
    match slot {
      case MigrationPlan => PathKept(sections.migration, "plan");
      case MigrationCheckpoint => PathKept(sections.migration, "checkpoint");
      case MigrationDryRun => FlagKept(sections.migration, "dry_run");
    }
  }

  lemma FromSectionsParts(sections: Sections, config: Effective)
    requires FromSections(sections) == Ok(config)
    ensures ParseImmich(sections.immich) == Ok(config.immich) && ParseSource(sections.scan) == Ok(config.source)
    ensures ParseScan(sections.scan) == Ok(config.scan) && ParseLimits(sections.scan) == Ok(config.limits)
    ensures ParseAlbums(sections.apple) == Ok(config.albums) && ParsePicasa(sections.picasa) == Ok(config.picasa)
    ensures ParseUpload(sections.upload) == Ok(config.upload) && ParseExecution(sections.upload) == Ok(config.execution)
    ensures ParseArchive(sections.archive) == Ok(config.archive)
    ensures ParseMigration(sections.migration) == Ok(config.migration)
  {
    hide ParseImmich, ParseSource, ParseScan, ParseLimits, ParseAlbums, ParsePicasa, ParseUpload, ParseExecution, ParseArchive, ParseMigration;
  }

  lemma ParseMigrationParts(table: Table, layer: MigrationLayer)
    requires ParseMigration(table) == Ok(layer)
    ensures ParseServers(table) == Ok(layer.servers) && ParseMigrationLimits(table) == Ok(layer.limits)
    ensures ParseMigrationFiles(table) == Ok(layer.files)
  {
    hide ParseServers, ParseMigrationLimits, ParseMigrationFiles;
  }

  lemma SectionSettings(sections: Sections, config: Effective, slot: Slot)
    requires FromSections(sections) == Ok(config)
    ensures IsKept(sections, config, slot)
  {
    FromSectionsParts(sections, config);
    hide FromSections, ParseImmich, ParseSource, ParseScan, ParseLimits, ParseAlbums, ParsePicasa, ParseUpload, ParseExecution, ParseArchive, ParseMigration;
    hide IsKept;
    if slot in {BufferBytes, MaxEntries, MaxDirectoryEntries, MaxPathBytes, CaseSensitive} {
      ScanKept(sections, config, slot);
    } else if slot in {MaxArchives, MaxArchiveEntryBytes, MaxCompressionRatio, CompressionRatioGraceBytes} {
      LimitsKept(sections, config, slot);
    } else if slot in {AlbumModeSlot, AlbumPathJoiner} {
      AlbumsKept(sections, config, slot);
    } else if slot in {PicasaAlbums, FilenameDate} {
      PicasaKept(sections, config, slot);
    } else if slot in {VerificationBufferBytes, Concurrency, MaxAttempts, MaxRetries, RetryBaseDelay, RetryDelayCap} {
      ExecutionKept(sections, config, slot);
    } else if slot in {Plan, Checkpoint, DryRun} {
      UploadKept(sections, config, slot);
    } else if slot in {ServerSlot, CaCertificate} {
      ImmichKept(sections, config, slot);
    } else {
      NotInFiles(sections, config, slot);
    }
  }

  lemma NotInFiles(sections: Sections, config: Effective, slot: Slot)
    requires slot in {ProductionRead, ProductionWrite, PlanSha256, ExpectedOperations, BackupReference}
    ensures IsKept(sections, config, slot)
  {
  }

  lemma SectionOtherSettings(sections: Sections, config: Effective, slot: OtherSlot)
    requires FromSections(sections) == Ok(config)
    ensures OtherIsKept(sections, config, slot)
  {
    FromSectionsParts(sections, config);
    ParseMigrationParts(sections.migration, config.migration);
    hide FromSections, ParseImmich, ParseSource, ParseScan, ParseLimits, ParseAlbums, ParsePicasa, ParseUpload, ParseExecution, ParseArchive, ParseMigration;
    hide ParseServers, ParseMigrationLimits, ParseMigrationFiles, OtherIsKept;
    if slot in {SourceLabel, SourcePath} {
      SourceKept(sections, config, slot);
    } else if slot in {ArchiveSelection, ArchiveIncludeTrashed, ArchivePageSize, ArchiveMaxAssets, ArchiveManifest, ArchiveDestination} {
      ArchiveKept(sections, config, slot);
    } else if slot in {MigrationSourceServer, MigrationDestinationServer} {
      ServersKept(sections, config, slot);
    } else if slot in {MigrationPageSize, MigrationMaxAssets, MigrationMaxAlbums, MigrationMaxAlbumMemberships, MigrationMaxAssetBytes, MigrationMaxTotalBytes} {
      MigrationLimitsKept(sections, config, slot);
    } else if slot in {MigrationPlan, MigrationCheckpoint, MigrationDryRun} {
      MigrationFilesKept(sections, config, slot);
    }
  }

  /** Every setting of a loaded configuration is the value under its own key in the file, and a key of
      another setting or section never shows in it. */
  lemma FileSettingsAreKept(document: Table, slot: Slot)
    requires LoadDocument(document).Ok?
    ensures Configured(LoadDocument(document).value, slot) == FileSetting(document, slot)
  {
    hide SectionValue, FileValue, TableValue, Configured, FromSections, ReadSections, KindOf;
    var sections := ReadSections(document).value;
    SectionSettings(sections, FromSections(sections).value, slot);
    if KeyOf(slot).Some? {
      SectionsKept(document, KeyOf(slot).value, KindOf(slot));
    }
  }

  /** The same for the settings of the other commands. */
  lemma OtherFileSettingsAreKept(document: Table, slot: OtherSlot)
    requires LoadDocument(document).Ok?
    ensures ConfiguredOther(LoadDocument(document).value, slot) == FileValue(document, OtherKey(slot), OtherKind(slot))
  {
    hide SectionValue, FileValue, TableValue, ConfiguredOther, FromSections, ReadSections, OtherKind, OtherKey;
    var sections := ReadSections(document).value;
    SectionOtherSettings(sections, FromSections(sections).value, slot);
    SectionsKept(document, OtherKey(slot), OtherKind(slot));
  }

  /** `[upload] source`, which is not a setting of its own: `apply` tries it among its inputs. */
  lemma UploadSourceKept(document: Table)
    requires LoadDocument(document).Ok?
    ensures AsPath(LoadDocument(document).value.upload.source) == FileValue(document, Key("upload", "source"), PathKind)
  {
    hide ReadSections, FromSections, ParseUpload, TableValue;
    var sections := ReadSections(document).value;
    var config := FromSections(sections).value;
    FromSectionsParts(sections, config);
    UploadSourceParsed(sections.upload);
    SectionsKept(document, Key("upload", "source"), PathKind);
  }

  lemma UploadSourceParsed(table: Table)
    requires ParseUpload(table).Ok?
    ensures AsPath(ParseUpload(table).value.source) == TableValue(table, "source", PathKind)
  {
    PathKept(table, "source");
    hide PathAt, TableValue;
  }
}

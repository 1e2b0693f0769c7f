/** The effective configuration of the command line, `EffectiveConfig` of crates/immich-cli/src/config.rs,
    and the tables of its environment variables and file keys. */
module Configuration {
  import opened Remote
  import opened Settings
  import opened SourceOptions
  import opened Wrappers

  // ---------------------------------------------------------------- the configuration, by section

  datatype ImmichLayer = ImmichLayer(server: Option<string>, caCertificate: Option<Argument>)

  datatype SourceLayer = SourceLayer(sourceLabel: Option<string>, source: Option<Argument>, inputs: Option<seq<Argument>>)

  datatype ScanLayer = ScanLayer(
    bufferBytes: Option<nat>,
    maxEntries: Option<nat>,
    maxDirectoryEntries: Option<nat>,
    maxPathBytes: Option<nat>,
    caseSensitive: Option<bool>)

  datatype LimitLayer = LimitLayer(
    maxArchives: Option<nat>,
    maxArchiveEntryBytes: Option<nat>,
    maxCompressionRatio: Option<nat>,
    compressionRatioGraceBytes: Option<nat>)

  datatype AlbumLayer = AlbumLayer(mode: Option<string>, pathJoiner: Option<string>)

  datatype PicasaLayer = PicasaLayer(albums: Option<bool>, filenameDate: Option<bool>)

  datatype UploadLayer = UploadLayer(
    plan: Option<Argument>,
    source: Option<Argument>,
    checkpoint: Option<Argument>,
    dryRun: Option<bool>)

  datatype ExecutionLayer = ExecutionLayer(
    verificationBufferBytes: Option<nat>,
    concurrency: Option<nat>,
    maxAttempts: Option<nat>,
    maxRetries: Option<nat>,
    retryBaseDelay: Option<nat>,
    retryDelayCap: Option<nat>)

  datatype ArchiveLayer = ArchiveLayer(
    selection: Option<string>,
    includeTrashed: Option<bool>,
    pageSize: Option<nat>,
    maxAssets: Option<nat>,
    manifest: Option<Argument>,
    destination: Option<Argument>)

  datatype MigrationServers = MigrationServers(source: Option<string>, destination: Option<string>)

  datatype MigrationLimits = MigrationLimits(
    pageSize: Option<nat>,
    maxAssets: Option<nat>,
    maxAlbums: Option<nat>,
    maxAlbumMemberships: Option<nat>,
    maxAssetBytes: Option<nat>,
    maxTotalBytes: Option<nat>)

  datatype MigrationFiles = MigrationFiles(plan: Option<Argument>, checkpoint: Option<Argument>, dryRun: Option<bool>)

  datatype MigrationLayer = MigrationLayer(servers: MigrationServers, limits: MigrationLimits, files: MigrationFiles)

  datatype Effective = Effective(
    immich: ImmichLayer,
    source: SourceLayer,
    scan: ScanLayer,
    limits: LimitLayer,
    albums: AlbumLayer,
    picasa: PicasaLayer,
    upload: UploadLayer,
    execution: ExecutionLayer,
    archive: ArchiveLayer,
    migration: MigrationLayer)

  const EMPTY := Effective(
    ImmichLayer(None, None),
    SourceLayer(None, None, None),
    ScanLayer(None, None, None, None, None),
    LimitLayer(None, None, None, None),
    AlbumLayer(None, None),
    PicasaLayer(None, None),
    UploadLayer(None, None, None, None),
    ExecutionLayer(None, None, None, None, None, None),
    ArchiveLayer(None, None, None, None, None, None),
    MigrationLayer(
      MigrationServers(None, None),
      MigrationLimits(None, None, None, None, None, None),
      MigrationFiles(None, None, None)))

  // ---------------------------------------------------------------- reading a setting

  function AsNumber(value: Option<nat>): Option<Value> {
    if value.Some? then Some(Number(value.value)) else None
  }

  function AsFlag(value: Option<bool>): Option<Value> {
    if value.Some? then Some(Flag(value.value)) else None
  }

  function AsText(value: Option<string>): Option<Value> {
    if value.Some? then Some(Text(value.value)) else None
  }

  function AsPath(value: Option<Argument>): Option<Value> {
    if value.Some? then Some(Path(value.value)) else None
  }

  function AsMode(value: Option<string>): Option<Value> {
    if value.Some? then ParseText(ModeKind, value.value) else None
  }

  /** The configured value of a setting. */
  function Configured(config: Effective, slot: Slot): Option<Value> {
    match slot
    case BufferBytes => AsNumber(config.scan.bufferBytes)
    case MaxEntries => AsNumber(config.scan.maxEntries)
    case MaxDirectoryEntries => AsNumber(config.scan.maxDirectoryEntries)
    case MaxPathBytes => AsNumber(config.scan.maxPathBytes)
    case CaseSensitive => AsFlag(config.scan.caseSensitive)
    case MaxArchives => AsNumber(config.limits.maxArchives)
    case MaxArchiveEntryBytes => AsNumber(config.limits.maxArchiveEntryBytes)
    case MaxCompressionRatio => AsNumber(config.limits.maxCompressionRatio)
    case CompressionRatioGraceBytes => AsNumber(config.limits.compressionRatioGraceBytes)
    case AlbumModeSlot => AsMode(config.albums.mode)
    case AlbumPathJoiner => AsText(config.albums.pathJoiner)
    case PicasaAlbums => AsFlag(config.picasa.albums)
    case FilenameDate => AsFlag(config.picasa.filenameDate)
    case VerificationBufferBytes => AsNumber(config.execution.verificationBufferBytes)
    case Concurrency => AsNumber(config.execution.concurrency)
    case MaxAttempts => AsNumber(config.execution.maxAttempts)
    case MaxRetries => AsNumber(config.execution.maxRetries)
    case RetryBaseDelay => AsNumber(config.execution.retryBaseDelay)
    case RetryDelayCap => AsNumber(config.execution.retryDelayCap)
    case Plan => AsPath(config.upload.plan)
    case Checkpoint => AsPath(config.upload.checkpoint)
    case ServerSlot => AsText(config.immich.server)
    case CaCertificate => AsPath(config.immich.caCertificate)
    case DryRun => AsFlag(config.upload.dryRun)
    case _ => None
  }

  /** The settings of the planning, archive and migration commands that `apply` does not read. */
  datatype OtherSlot =
    | SourceLabel | SourcePath
    | ArchiveSelection | ArchiveIncludeTrashed | ArchivePageSize | ArchiveMaxAssets | ArchiveManifest
    | ArchiveDestination
    | MigrationSourceServer | MigrationDestinationServer
    | MigrationPageSize | MigrationMaxAssets | MigrationMaxAlbums | MigrationMaxAlbumMemberships
    | MigrationMaxAssetBytes | MigrationMaxTotalBytes
    | MigrationPlan | MigrationCheckpoint | MigrationDryRun

  function OtherKind(slot: OtherSlot): Kind {
    match slot
    case SourceLabel => TextKind
    case SourcePath => PathKind
    case ArchiveSelection => TextKind
    case ArchiveIncludeTrashed => FlagKind
    case ArchiveManifest => PathKind
    case ArchiveDestination => PathKind
    case MigrationSourceServer => TextKind
    case MigrationDestinationServer => TextKind
    case MigrationPlan => PathKind
    case MigrationCheckpoint => PathKind
    case MigrationDryRun => FlagKind
    case _ => NumberKind(U64_MAX)
  }

  function OtherVariable(slot: OtherSlot): string {
    match slot
    case SourceLabel => "IMMICH_RS_LABEL"
    case SourcePath => "IMMICH_RS_SOURCE"
    case ArchiveSelection => "IMMICH_RS_ARCHIVE_SELECTION"
    case ArchiveIncludeTrashed => "IMMICH_RS_ARCHIVE_INCLUDE_TRASHED"
    case ArchivePageSize => "IMMICH_RS_ARCHIVE_PAGE_SIZE"
    case ArchiveMaxAssets => "IMMICH_RS_ARCHIVE_MAX_ASSETS"
    case ArchiveManifest => "IMMICH_RS_ARCHIVE_MANIFEST"
    case ArchiveDestination => "IMMICH_RS_ARCHIVE_DESTINATION"
    case MigrationSourceServer => "IMMICH_RS_MIGRATION_SOURCE_SERVER"
    case MigrationDestinationServer => "IMMICH_RS_MIGRATION_DESTINATION_SERVER"
    case MigrationPageSize => "IMMICH_RS_MIGRATION_PAGE_SIZE"
    case MigrationMaxAssets => "IMMICH_RS_MIGRATION_MAX_ASSETS"
    case MigrationMaxAlbums => "IMMICH_RS_MIGRATION_MAX_ALBUMS"
    case MigrationMaxAlbumMemberships => "IMMICH_RS_MIGRATION_MAX_ALBUM_MEMBERSHIPS"
    case MigrationMaxAssetBytes => "IMMICH_RS_MIGRATION_MAX_ASSET_BYTES"
    case MigrationMaxTotalBytes => "IMMICH_RS_MIGRATION_MAX_TOTAL_BYTES"
    case MigrationPlan => "IMMICH_RS_MIGRATION_PLAN"
    case MigrationCheckpoint => "IMMICH_RS_MIGRATION_CHECKPOINT"
    case MigrationDryRun => "IMMICH_RS_MIGRATION_DRY_RUN"
  }

  function ConfiguredOther(config: Effective, slot: OtherSlot): Option<Value> {
    match slot
    case SourceLabel => AsText(config.source.sourceLabel)
    case SourcePath => AsPath(config.source.source)
    case ArchiveSelection => AsText(config.archive.selection)
    case ArchiveIncludeTrashed => AsFlag(config.archive.includeTrashed)
    case ArchivePageSize => AsNumber(config.archive.pageSize)
    case ArchiveMaxAssets => AsNumber(config.archive.maxAssets)
    case ArchiveManifest => AsPath(config.archive.manifest)
    case ArchiveDestination => AsPath(config.archive.destination)
    case MigrationSourceServer => AsText(config.migration.servers.source)
    case MigrationDestinationServer => AsText(config.migration.servers.destination)
    case MigrationPageSize => AsNumber(config.migration.limits.pageSize)
    case MigrationMaxAssets => AsNumber(config.migration.limits.maxAssets)
    case MigrationMaxAlbums => AsNumber(config.migration.limits.maxAlbums)
    case MigrationMaxAlbumMemberships => AsNumber(config.migration.limits.maxAlbumMemberships)
    case MigrationMaxAssetBytes => AsNumber(config.migration.limits.maxAssetBytes)
    case MigrationMaxTotalBytes => AsNumber(config.migration.limits.maxTotalBytes)
    case MigrationPlan => AsPath(config.migration.files.plan)
    case MigrationCheckpoint => AsPath(config.migration.files.checkpoint)
    case MigrationDryRun => AsFlag(config.migration.files.dryRun)
  }

  // ---------------------------------------------------------------- keys of the configuration file

  datatype Key = Key(section: string, name: string)

  function KeyOf(slot: Slot): Option<Key> {
    match slot
    case BufferBytes => Some(Key("scan", "buffer_bytes"))
    case MaxEntries => Some(Key("scan", "max_entries"))
    case MaxDirectoryEntries => Some(Key("scan", "max_directory_entries"))
    case MaxPathBytes => Some(Key("scan", "max_path_bytes"))
    case CaseSensitive => Some(Key("scan", "case_sensitive"))
    case MaxArchives => Some(Key("scan", "max_archives"))
    case MaxArchiveEntryBytes => Some(Key("scan", "max_archive_entry_bytes"))
    case MaxCompressionRatio => Some(Key("scan", "max_compression_ratio"))
    case CompressionRatioGraceBytes => Some(Key("scan", "compression_ratio_grace_bytes"))
    case AlbumModeSlot => Some(Key("apple_photos", "album_mode"))
    case AlbumPathJoiner => Some(Key("apple_photos", "album_path_joiner"))
    case PicasaAlbums => Some(Key("picasa", "albums"))
    case FilenameDate => Some(Key("picasa", "filename_date"))
    case VerificationBufferBytes => Some(Key("upload", "verification_buffer_bytes"))
    case Concurrency => Some(Key("upload", "concurrency"))
    case MaxAttempts => Some(Key("upload", "max_attempts_per_operation"))
    case MaxRetries => Some(Key("upload", "max_retries_per_run"))
    case RetryBaseDelay => Some(Key("upload", "retry_base_delay_ms"))
    case RetryDelayCap => Some(Key("upload", "retry_delay_cap_ms"))
    case Plan => Some(Key("upload", "plan"))
    case Checkpoint => Some(Key("upload", "checkpoint"))
    case DryRun => Some(Key("upload", "dry_run"))
    case ServerSlot => Some(Key("immich", "server"))
    case CaCertificate => Some(Key("immich", "ca_certificate"))
    case _ => None
  }

  function OtherKey(slot: OtherSlot): Key {
    match slot
    case SourceLabel => Key("scan", "label")
    case SourcePath => Key("scan", "source")
    case ArchiveSelection => Key("archive", "selection")
    case ArchiveIncludeTrashed => Key("archive", "include_trashed")
    case ArchivePageSize => Key("archive", "page_size")
    case ArchiveMaxAssets => Key("archive", "max_assets")
    case ArchiveManifest => Key("archive", "manifest")
    case ArchiveDestination => Key("archive", "destination")
    case MigrationSourceServer => Key("migration", "source_server")
    case MigrationDestinationServer => Key("migration", "destination_server")
    case MigrationPageSize => Key("migration", "page_size")
    case MigrationMaxAssets => Key("migration", "max_assets")
    case MigrationMaxAlbums => Key("migration", "max_albums")
    case MigrationMaxAlbumMemberships => Key("migration", "max_album_memberships")
    case MigrationMaxAssetBytes => Key("migration", "max_asset_bytes")
    case MigrationMaxTotalBytes => Key("migration", "max_total_bytes")
    case MigrationPlan => Key("migration", "plan")
    case MigrationCheckpoint => Key("migration", "checkpoint")
    case MigrationDryRun => Key("migration", "dry_run")
  }
}

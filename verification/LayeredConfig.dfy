/** The configuration layers of crates/immich-cli/src/config.rs and environment.rs: a file, overlaid
    by the environment. */
module LayeredConfig {
  import opened ConfigFile
  import opened Configuration
  import opened Remote
  import opened Settings
  import opened SourceOptions
  import opened Wrappers

  // ---------------------------------------------------------------- the environment overlay

  /** `value`: the text of a variable that is set. */
  function Variable(environment: Environment, name: string): Result<Option<string>, Usage> {
    if name !in environment then Ok(None)
    else if environment[name].Opaque? then Err(Usage("a variable must contain valid Unicode"))
    else Ok(Some(environment[name].text))
  }

  function SetString(target: Option<string>, environment: Environment, name: string): Result<Option<string>, Usage> {
    var value :- Variable(environment, name);
    Ok(OrElse(value, target))
  }

  function SetPath(target: Option<Argument>, environment: Environment, name: string): Result<Option<Argument>, Usage> {
    var value :- Variable(environment, name);
    Ok(if value.Some? then Some(Unicode(value.value)) else target)
  }

  function SetParsed(target: Option<nat>, max: nat, environment: Environment, name: string): Result<Option<nat>, Usage> {
    var value :- Variable(environment, name);
    if value.None? then Ok(target)
    else
      var number := ParseU64(value.value);
      if number.Some? && number.value <= max then Ok(number) else Err(Usage("an invalid numeric value"))
  }

  function SetBool(target: Option<bool>, environment: Environment, name: string): Result<Option<bool>, Usage> {
    var value :- Variable(environment, name);
    if value.None? then Ok(target)
    else if value.value == "true" then Ok(Some(true))
    else if value.value == "false" then Ok(Some(false))
    else Err(Usage("must be true or false"))
  }

  function OverlayImmich(environment: Environment, layer: ImmichLayer): Result<ImmichLayer, Usage> {
    var server :- SetString(layer.server, environment, "IMMICH_RS_SERVER");
    var caCertificate :- SetPath(layer.caCertificate, environment, "IMMICH_RS_CA_CERTIFICATE");
    Ok(ImmichLayer(server, caCertificate))
  }

  const INPUTS_VARIABLE := "IMMICH_RS_INPUTS_JSON"
  const CONFIG_VARIABLE := "IMMICH_RS_CONFIG"

  /** `json` reads a JSON array of paths. */
  function OverlaySource(json: string -> Option<seq<Argument>>, environment: Environment, layer: SourceLayer)
    : Result<SourceLayer, Usage>
  {
    var sourceLabel :- SetString(layer.sourceLabel, environment, "IMMICH_RS_LABEL");
    var source :- SetPath(layer.source, environment, "IMMICH_RS_SOURCE");
    var text :- Variable(environment, INPUTS_VARIABLE);
    if text.None? then Ok(SourceLayer(sourceLabel, source, layer.inputs))
    else if json(text.value).None? then Err(Usage("IMMICH_RS_INPUTS_JSON must be a JSON array"))
    else Ok(SourceLayer(sourceLabel, source, json(text.value)))
  }

  function OverlayScan(environment: Environment, layer: ScanLayer): Result<ScanLayer, Usage> {
    var bufferBytes :- SetParsed(layer.bufferBytes, U64_MAX, environment, "IMMICH_RS_BUFFER_BYTES");
    var maxEntries :- SetParsed(layer.maxEntries, U64_MAX, environment, "IMMICH_RS_MAX_ENTRIES");
    var maxDirectoryEntries :-
      SetParsed(layer.maxDirectoryEntries, U64_MAX, environment, "IMMICH_RS_MAX_DIRECTORY_ENTRIES");
    var maxPathBytes :- SetParsed(layer.maxPathBytes, U64_MAX, environment, "IMMICH_RS_MAX_PATH_BYTES");
    var caseSensitive :- SetBool(layer.caseSensitive, environment, "IMMICH_RS_CASE_SENSITIVE");
    Ok(ScanLayer(bufferBytes, maxEntries, maxDirectoryEntries, maxPathBytes, caseSensitive))
  }

  function OverlayLimits(environment: Environment, layer: LimitLayer): Result<LimitLayer, Usage> {
    var maxArchives :- SetParsed(layer.maxArchives, U64_MAX, environment, "IMMICH_RS_MAX_ARCHIVES");
    var maxArchiveEntryBytes :-
      SetParsed(layer.maxArchiveEntryBytes, U64_MAX, environment, "IMMICH_RS_MAX_ARCHIVE_ENTRY_BYTES");
    var maxCompressionRatio :-
      SetParsed(layer.maxCompressionRatio, U64_MAX, environment, "IMMICH_RS_MAX_COMPRESSION_RATIO");
    var compressionRatioGraceBytes :-
      SetParsed(layer.compressionRatioGraceBytes, U64_MAX, environment, "IMMICH_RS_COMPRESSION_RATIO_GRACE_BYTES");
    Ok(LimitLayer(maxArchives, maxArchiveEntryBytes, maxCompressionRatio, compressionRatioGraceBytes))
  }

  function OverlayAlbums(environment: Environment, layer: AlbumLayer): Result<AlbumLayer, Usage> {
    var mode :- SetString(layer.mode, environment, "IMMICH_RS_ALBUM_MODE");
    var pathJoiner :- SetString(layer.pathJoiner, environment, "IMMICH_RS_ALBUM_PATH_JOINER");
    Ok(AlbumLayer(mode, pathJoiner))
  }

  function OverlayPicasa(environment: Environment, layer: PicasaLayer): Result<PicasaLayer, Usage> {
    var albums :- SetBool(layer.albums, environment, "IMMICH_RS_PICASA_ALBUMS");
    var filenameDate :- SetBool(layer.filenameDate, environment, "IMMICH_RS_PICASA_FILENAME_DATE");
    Ok(PicasaLayer(albums, filenameDate))
  }

  function OverlayUpload(environment: Environment, layer: UploadLayer): Result<UploadLayer, Usage> {
    var plan :- SetPath(layer.plan, environment, "IMMICH_RS_UPLOAD_PLAN");
    var source :- SetPath(layer.source, environment, UPLOAD_SOURCE_VARIABLE);
    var checkpoint :- SetPath(layer.checkpoint, environment, "IMMICH_RS_UPLOAD_CHECKPOINT");
    var dryRun :- SetBool(layer.dryRun, environment, "IMMICH_RS_UPLOAD_DRY_RUN");
    Ok(UploadLayer(plan, source, checkpoint, dryRun))
  }

  function OverlayExecution(environment: Environment, layer: ExecutionLayer): Result<ExecutionLayer, Usage> {
    var verificationBufferBytes :-
      SetParsed(layer.verificationBufferBytes, U64_MAX, environment, "IMMICH_RS_VERIFICATION_BUFFER_BYTES");
    var concurrency :- SetParsed(layer.concurrency, U64_MAX, environment, "IMMICH_RS_CONCURRENCY");
    var maxAttempts :- SetParsed(layer.maxAttempts, U32_MAX, environment, "IMMICH_RS_MAX_ATTEMPTS_PER_OPERATION");
    var maxRetries :- SetParsed(layer.maxRetries, U32_MAX, environment, "IMMICH_RS_MAX_RETRIES_PER_RUN");
    var retryBaseDelay :- SetParsed(layer.retryBaseDelay, U64_MAX, environment, "IMMICH_RS_RETRY_BASE_DELAY_MS");
    var retryDelayCap :- SetParsed(layer.retryDelayCap, U64_MAX, environment, "IMMICH_RS_RETRY_DELAY_CAP_MS");
    Ok(ExecutionLayer(verificationBufferBytes, concurrency, maxAttempts, maxRetries, retryBaseDelay, retryDelayCap))
  }

  function OverlayArchive(environment: Environment, layer: ArchiveLayer): Result<ArchiveLayer, Usage> {
    var selection :- SetString(layer.selection, environment, "IMMICH_RS_ARCHIVE_SELECTION");
    var includeTrashed :- SetBool(layer.includeTrashed, environment, "IMMICH_RS_ARCHIVE_INCLUDE_TRASHED");
    var pageSize :- SetParsed(layer.pageSize, U64_MAX, environment, "IMMICH_RS_ARCHIVE_PAGE_SIZE");
    var maxAssets :- SetParsed(layer.maxAssets, U64_MAX, environment, "IMMICH_RS_ARCHIVE_MAX_ASSETS");
    var manifest :- SetPath(layer.manifest, environment, "IMMICH_RS_ARCHIVE_MANIFEST");
    var destination :- SetPath(layer.destination, environment, "IMMICH_RS_ARCHIVE_DESTINATION");
    Ok(ArchiveLayer(selection, includeTrashed, pageSize, maxAssets, manifest, destination))
  }

  function OverlayMigrationServers(environment: Environment, layer: MigrationServers): Result<MigrationServers, Usage> {
    var source :- SetString(layer.source, environment, "IMMICH_RS_MIGRATION_SOURCE_SERVER");
    var destination :- SetString(layer.destination, environment, "IMMICH_RS_MIGRATION_DESTINATION_SERVER");
    Ok(MigrationServers(source, destination))
  }

  function OverlayMigrationLimits(environment: Environment, layer: MigrationLimits): Result<MigrationLimits, Usage> {
    var pageSize :- SetParsed(layer.pageSize, U64_MAX, environment, "IMMICH_RS_MIGRATION_PAGE_SIZE");
    var maxAssets :- SetParsed(layer.maxAssets, U64_MAX, environment, "IMMICH_RS_MIGRATION_MAX_ASSETS");
    var maxAlbums :- SetParsed(layer.maxAlbums, U64_MAX, environment, "IMMICH_RS_MIGRATION_MAX_ALBUMS");
    var maxAlbumMemberships :-
      SetParsed(layer.maxAlbumMemberships, U64_MAX, environment, "IMMICH_RS_MIGRATION_MAX_ALBUM_MEMBERSHIPS");
    var maxAssetBytes :- SetParsed(layer.maxAssetBytes, U64_MAX, environment, "IMMICH_RS_MIGRATION_MAX_ASSET_BYTES");
    var maxTotalBytes :- SetParsed(layer.maxTotalBytes, U64_MAX, environment, "IMMICH_RS_MIGRATION_MAX_TOTAL_BYTES");
    Ok(MigrationLimits(pageSize, maxAssets, maxAlbums, maxAlbumMemberships, maxAssetBytes, maxTotalBytes))
  }

  function OverlayMigrationFiles(environment: Environment, layer: MigrationFiles): Result<MigrationFiles, Usage> {
    var plan :- SetPath(layer.plan, environment, "IMMICH_RS_MIGRATION_PLAN");
    var checkpoint :- SetPath(layer.checkpoint, environment, "IMMICH_RS_MIGRATION_CHECKPOINT");
    var dryRun :- SetBool(layer.dryRun, environment, "IMMICH_RS_MIGRATION_DRY_RUN");
    Ok(MigrationFiles(plan, checkpoint, dryRun))
  }

  /** `overlay_migration`. */
  function OverlayMigration(environment: Environment, layer: MigrationLayer): Result<MigrationLayer, Usage> {
    var servers :- OverlayMigrationServers(environment, layer.servers);
    var limits :- OverlayMigrationLimits(environment, layer.limits);
    var files :- OverlayMigrationFiles(environment, layer.files);
    Ok(MigrationLayer(servers, limits, files))
  }

  function Overlay(json: string -> Option<seq<Argument>>, environment: Environment, config: Effective)
    : Result<Effective, Usage>
  {
    var immich :- OverlayImmich(environment, config.immich);
    var source :- OverlaySource(json, environment, config.source);
    var scan :- OverlayScan(environment, config.scan);
    var limits :- OverlayLimits(environment, config.limits);
    var albums :- OverlayAlbums(environment, config.albums);
    var picasa :- OverlayPicasa(environment, config.picasa);
    var upload :- OverlayUpload(environment, config.upload);
    var execution :- OverlayExecution(environment, config.execution);
    var archive :- OverlayArchive(environment, config.archive);
    var migration :- OverlayMigration(environment, config.migration);
    Ok(Effective(immich, source, scan, limits, albums, picasa, upload, execution, archive, migration))
  }

  // ---------------------------------------------------------------- the environment wins over the file

  /** A value comes from the variable when it is set, and from the layer below otherwise. */
  ghost predicate VariableWins(environment: Environment, name: string, kind: Kind, value: Option<Value>,
                               below: Option<Value>)
  {
    value == if name in environment then VariableValue(environment, name, kind) else below
  }

  ghost predicate Wins(environment: Environment, slot: Slot, value: Option<Value>, below: Option<Value>) {
    match VariableOf(slot)
    case None => value == below
    case Some(name) => VariableWins(environment, name, KindOf(slot), value, below)
  }

  lemma StringWins(environment: Environment, name: string, target: Option<string>)
    ensures var r := SetString(target, environment, name);
      r.Ok? ==> VariableWins(environment, name, TextKind, AsText(r.value), AsText(target))
  {
  }

  lemma ModeWins(environment: Environment, name: string, target: Option<string>)
    ensures var r := SetString(target, environment, name);
      r.Ok? ==> VariableWins(environment, name, ModeKind, AsMode(r.value), AsMode(target))
  {
  }

  lemma PathWins(environment: Environment, name: string, target: Option<Argument>)
    ensures var r := SetPath(target, environment, name);
      r.Ok? ==> VariableWins(environment, name, PathKind, AsPath(r.value), AsPath(target))
  {
  }

  lemma NumberWins(environment: Environment, name: string, max: nat, target: Option<nat>)
    ensures var r := SetParsed(target, max, environment, name);
      r.Ok? ==> VariableWins(environment, name, NumberKind(max), AsNumber(r.value), AsNumber(target))
  {
    hide ParseU64;
  }

  lemma FlagWins(environment: Environment, name: string, target: Option<bool>)
    ensures var r := SetBool(target, environment, name);
      r.Ok? ==> VariableWins(environment, name, FlagKind, AsFlag(r.value), AsFlag(target))
  {
  }

  ghost predicate SlotWins(environment: Environment, slot: Slot, config: Effective, updated: Effective) {
    Wins(environment, slot, Configured(updated, slot), Configured(config, slot))
  }

  lemma ScanWins(environment: Environment, config: Effective, updated: Effective, slot: Slot)
    requires OverlayScan(environment, config.scan) == Ok(updated.scan)
    requires slot in {BufferBytes, MaxEntries, MaxDirectoryEntries, MaxPathBytes, CaseSensitive}
    ensures SlotWins(environment, slot, config, updated)
  {
    hide VariableWins, SetParsed, SetBool;
    match slot {
      case BufferBytes => NumberWins(environment, "IMMICH_RS_BUFFER_BYTES", U64_MAX, config.scan.bufferBytes);
      case MaxEntries => NumberWins(environment, "IMMICH_RS_MAX_ENTRIES", U64_MAX, config.scan.maxEntries);
      case MaxDirectoryEntries => NumberWins(environment, "IMMICH_RS_MAX_DIRECTORY_ENTRIES", U64_MAX, config.scan.maxDirectoryEntries);
      case MaxPathBytes => NumberWins(environment, "IMMICH_RS_MAX_PATH_BYTES", U64_MAX, config.scan.maxPathBytes);
      case CaseSensitive => FlagWins(environment, "IMMICH_RS_CASE_SENSITIVE", config.scan.caseSensitive);
    }
  }

  lemma LimitsWin(environment: Environment, config: Effective, updated: Effective, slot: Slot)
    requires OverlayLimits(environment, config.limits) == Ok(updated.limits)
    requires slot in {MaxArchives, MaxArchiveEntryBytes, MaxCompressionRatio, CompressionRatioGraceBytes}
    ensures SlotWins(environment, slot, config, updated)
  {
    hide VariableWins, SetParsed;
    match slot {
      case MaxArchives => NumberWins(environment, "IMMICH_RS_MAX_ARCHIVES", U64_MAX, config.limits.maxArchives);
      case MaxArchiveEntryBytes => NumberWins(environment, "IMMICH_RS_MAX_ARCHIVE_ENTRY_BYTES", U64_MAX, config.limits.maxArchiveEntryBytes);
      case MaxCompressionRatio => NumberWins(environment, "IMMICH_RS_MAX_COMPRESSION_RATIO", U64_MAX, config.limits.maxCompressionRatio);
      case CompressionRatioGraceBytes => NumberWins(environment, "IMMICH_RS_COMPRESSION_RATIO_GRACE_BYTES", U64_MAX, config.limits.compressionRatioGraceBytes);
    }
  }

  lemma ExecutionWins(environment: Environment, config: Effective, updated: Effective, slot: Slot)
    requires OverlayExecution(environment, config.execution) == Ok(updated.execution)
    requires slot in {VerificationBufferBytes, Concurrency, MaxAttempts, MaxRetries, RetryBaseDelay, RetryDelayCap}
    ensures SlotWins(environment, slot, config, updated)
  {
    hide VariableWins, SetParsed;
    match slot {
      case VerificationBufferBytes => NumberWins(environment, "IMMICH_RS_VERIFICATION_BUFFER_BYTES", U64_MAX, config.execution.verificationBufferBytes);
      case Concurrency => NumberWins(environment, "IMMICH_RS_CONCURRENCY", U64_MAX, config.execution.concurrency);
      case MaxAttempts => NumberWins(environment, "IMMICH_RS_MAX_ATTEMPTS_PER_OPERATION", U32_MAX, config.execution.maxAttempts);
      case MaxRetries => NumberWins(environment, "IMMICH_RS_MAX_RETRIES_PER_RUN", U32_MAX, config.execution.maxRetries);
      case RetryBaseDelay => NumberWins(environment, "IMMICH_RS_RETRY_BASE_DELAY_MS", U64_MAX, config.execution.retryBaseDelay);
      case RetryDelayCap => NumberWins(environment, "IMMICH_RS_RETRY_DELAY_CAP_MS", U64_MAX, config.execution.retryDelayCap);
    }
  }

  lemma UploadWins(environment: Environment, config: Effective, updated: Effective, slot: Slot)
    requires OverlayUpload(environment, config.upload) == Ok(updated.upload)
    requires slot in {Plan, Checkpoint, DryRun}
    ensures SlotWins(environment, slot, config, updated)
  {
    hide VariableWins, SetPath, SetBool;
    match slot {
      case Plan => PathWins(environment, "IMMICH_RS_UPLOAD_PLAN", config.upload.plan);
      case Checkpoint => PathWins(environment, "IMMICH_RS_UPLOAD_CHECKPOINT", config.upload.checkpoint);
      case DryRun => FlagWins(environment, "IMMICH_RS_UPLOAD_DRY_RUN", config.upload.dryRun);
    }
  }

  lemma ImmichWins(environment: Environment, config: Effective, updated: Effective, slot: Slot)
    requires OverlayImmich(environment, config.immich) == Ok(updated.immich)
    requires slot in {ServerSlot, CaCertificate}
    ensures SlotWins(environment, slot, config, updated)
  {
    hide VariableWins, SetString, SetPath;
    match slot {
      case ServerSlot => StringWins(environment, "IMMICH_RS_SERVER", config.immich.server);
      case CaCertificate => PathWins(environment, "IMMICH_RS_CA_CERTIFICATE", config.immich.caCertificate);
    }
  }

  lemma AlbumsWin(environment: Environment, config: Effective, updated: Effective, slot: Slot)
    requires OverlayAlbums(environment, config.albums) == Ok(updated.albums)
    requires slot in {AlbumModeSlot, AlbumPathJoiner}
    ensures SlotWins(environment, slot, config, updated)
  {
    hide VariableWins, SetString;
    match slot {
      case AlbumModeSlot => ModeWins(environment, "IMMICH_RS_ALBUM_MODE", config.albums.mode);
      case AlbumPathJoiner => StringWins(environment, "IMMICH_RS_ALBUM_PATH_JOINER", config.albums.pathJoiner);
    }
  }

  lemma PicasaWins(environment: Environment, config: Effective, updated: Effective, slot: Slot)
    requires OverlayPicasa(environment, config.picasa) == Ok(updated.picasa)
    requires slot in {PicasaAlbums, FilenameDate}
    ensures SlotWins(environment, slot, config, updated)
  {
    hide VariableWins, SetBool;
    match slot {
      case PicasaAlbums => FlagWins(environment, "IMMICH_RS_PICASA_ALBUMS", config.picasa.albums);
      case FilenameDate => FlagWins(environment, "IMMICH_RS_PICASA_FILENAME_DATE", config.picasa.filenameDate);
    }
  }

  lemma CommandLineOnly(environment: Environment, config: Effective, updated: Effective, slot: Slot)
    requires VariableOf(slot).None?
    ensures SlotWins(environment, slot, config, updated)
  {
  }

  lemma OverlaySections(json: string -> Option<seq<Argument>>, environment: Environment, config: Effective)
    requires Overlay(json, environment, config).Ok?
    ensures var updated := Overlay(json, environment, config).value;
      && OverlayImmich(environment, config.immich) == Ok(updated.immich)
      && OverlayScan(environment, config.scan) == Ok(updated.scan)
      && OverlayLimits(environment, config.limits) == Ok(updated.limits)
      && OverlayAlbums(environment, config.albums) == Ok(updated.albums)
      && OverlayPicasa(environment, config.picasa) == Ok(updated.picasa)
      && OverlayUpload(environment, config.upload) == Ok(updated.upload)
      && OverlayExecution(environment, config.execution) == Ok(updated.execution)
      && OverlaySource(json, environment, config.source) == Ok(updated.source)
      && OverlayArchive(environment, config.archive) == Ok(updated.archive)
      && OverlayMigration(environment, config.migration) == Ok(updated.migration)
  {
    hide OverlayImmich, OverlaySource, OverlayScan, OverlayLimits, OverlayAlbums, OverlayPicasa, OverlayUpload, OverlayExecution;
    hide OverlayArchive, OverlayMigration;
  }

  /** Every setting of `apply` comes from its environment variable when that is set, and from the file
      otherwise; no variable changes another setting. */
  lemma EnvironmentWinsOverFile(json: string -> Option<seq<Argument>>, environment: Environment, config: Effective, slot: Slot)
    requires Overlay(json, environment, config).Ok?
    ensures SlotWins(environment, slot, config, Overlay(json, environment, config).value)
  {
    OverlaySections(json, environment, config);
    var updated := Overlay(json, environment, config).value;
    hide Overlay, OverlayImmich, OverlayScan, OverlayLimits, OverlayAlbums, OverlayPicasa, OverlayUpload, OverlayExecution;
    hide SlotWins;
    if slot in {BufferBytes, MaxEntries, MaxDirectoryEntries, MaxPathBytes, CaseSensitive} {
      ScanWins(environment, config, updated, slot);
    } else if slot in {MaxArchives, MaxArchiveEntryBytes, MaxCompressionRatio, CompressionRatioGraceBytes} {
      LimitsWin(environment, config, updated, slot);
    } else if slot in {VerificationBufferBytes, Concurrency, MaxAttempts, MaxRetries, RetryBaseDelay, RetryDelayCap} {
      ExecutionWins(environment, config, updated, slot);
    } else if slot in {Plan, Checkpoint, DryRun} {
      UploadWins(environment, config, updated, slot);
    } else if slot in {ServerSlot, CaCertificate} {
      ImmichWins(environment, config, updated, slot);
    } else if slot in {AlbumModeSlot, AlbumPathJoiner} {
      AlbumsWin(environment, config, updated, slot);
    } else if slot in {PicasaAlbums, FilenameDate} {
      PicasaWins(environment, config, updated, slot);
    } else {
      CommandLineOnly(environment, config, updated, slot);
    }
  }

  ghost predicate OtherWins(environment: Environment, slot: OtherSlot, config: Effective, updated: Effective) {
    VariableWins(environment, OtherVariable(slot), OtherKind(slot), ConfiguredOther(updated, slot),
                 ConfiguredOther(config, slot))
  }

  lemma ArchiveWins(environment: Environment, config: Effective, updated: Effective, slot: OtherSlot)
    requires OverlayArchive(environment, config.archive) == Ok(updated.archive)
    requires slot in {ArchiveSelection, ArchiveIncludeTrashed, ArchivePageSize, ArchiveMaxAssets, ArchiveManifest, ArchiveDestination}
    ensures OtherWins(environment, slot, config, updated)
  {
    hide VariableWins, SetString, SetPath, SetParsed, SetBool;
    match slot {
      case ArchiveSelection => StringWins(environment, "IMMICH_RS_ARCHIVE_SELECTION", config.archive.selection);
      case ArchiveIncludeTrashed => FlagWins(environment, "IMMICH_RS_ARCHIVE_INCLUDE_TRASHED", config.archive.includeTrashed);
      case ArchivePageSize => NumberWins(environment, "IMMICH_RS_ARCHIVE_PAGE_SIZE", U64_MAX, config.archive.pageSize);
      case ArchiveMaxAssets => NumberWins(environment, "IMMICH_RS_ARCHIVE_MAX_ASSETS", U64_MAX, config.archive.maxAssets);
      case ArchiveManifest => PathWins(environment, "IMMICH_RS_ARCHIVE_MANIFEST", config.archive.manifest);
      case ArchiveDestination => PathWins(environment, "IMMICH_RS_ARCHIVE_DESTINATION", config.archive.destination);
    }
  }

  lemma MigrationServersWin(environment: Environment, config: Effective, updated: Effective, slot: OtherSlot)
    requires OverlayMigrationServers(environment, config.migration.servers) == Ok(updated.migration.servers)
    requires slot in {MigrationSourceServer, MigrationDestinationServer}
    ensures OtherWins(environment, slot, config, updated)
  {
    hide VariableWins, SetString, SetPath, SetParsed, SetBool;
    match slot {
      case MigrationSourceServer => StringWins(environment, "IMMICH_RS_MIGRATION_SOURCE_SERVER", config.migration.servers.source);
      case MigrationDestinationServer => StringWins(environment, "IMMICH_RS_MIGRATION_DESTINATION_SERVER", config.migration.servers.destination);
    }
  }

  lemma MigrationLimitsWin(environment: Environment, config: Effective, updated: Effective, slot: OtherSlot)
    requires OverlayMigrationLimits(environment, config.migration.limits) == Ok(updated.migration.limits)
    requires slot in {MigrationPageSize, MigrationMaxAssets, MigrationMaxAlbums, MigrationMaxAlbumMemberships, MigrationMaxAssetBytes, MigrationMaxTotalBytes}
    ensures OtherWins(environment, slot, config, updated)
  {
    hide VariableWins, SetString, SetPath, SetParsed, SetBool;
    match slot {
      case MigrationPageSize => NumberWins(environment, "IMMICH_RS_MIGRATION_PAGE_SIZE", U64_MAX, config.migration.limits.pageSize);
      case MigrationMaxAssets => NumberWins(environment, "IMMICH_RS_MIGRATION_MAX_ASSETS", U64_MAX, config.migration.limits.maxAssets);
      case MigrationMaxAlbums => NumberWins(environment, "IMMICH_RS_MIGRATION_MAX_ALBUMS", U64_MAX, config.migration.limits.maxAlbums);
      case MigrationMaxAlbumMemberships => NumberWins(environment, "IMMICH_RS_MIGRATION_MAX_ALBUM_MEMBERSHIPS", U64_MAX, config.migration.limits.maxAlbumMemberships);
      case MigrationMaxAssetBytes => NumberWins(environment, "IMMICH_RS_MIGRATION_MAX_ASSET_BYTES", U64_MAX, config.migration.limits.maxAssetBytes);
      case MigrationMaxTotalBytes => NumberWins(environment, "IMMICH_RS_MIGRATION_MAX_TOTAL_BYTES", U64_MAX, config.migration.limits.maxTotalBytes);
    }
  }

  lemma MigrationFilesWin(environment: Environment, config: Effective, updated: Effective, slot: OtherSlot)
    requires OverlayMigrationFiles(environment, config.migration.files) == Ok(updated.migration.files)
    requires slot in {MigrationPlan, MigrationCheckpoint, MigrationDryRun}
    ensures OtherWins(environment, slot, config, updated)
  {
    hide VariableWins, SetString, SetPath, SetParsed, SetBool;
    match slot {
      case MigrationPlan => PathWins(environment, "IMMICH_RS_MIGRATION_PLAN", config.migration.files.plan);
      case MigrationCheckpoint => PathWins(environment, "IMMICH_RS_MIGRATION_CHECKPOINT", config.migration.files.checkpoint);
      case MigrationDryRun => FlagWins(environment, "IMMICH_RS_MIGRATION_DRY_RUN", config.migration.files.dryRun);
    }
  }

  lemma SourceWins(json: string -> Option<seq<Argument>>, environment: Environment, config: Effective, updated: Effective,
                   slot: OtherSlot)
    requires OverlaySource(json, environment, config.source) == Ok(updated.source)
    requires slot in {SourceLabel, SourcePath}
    ensures OtherWins(environment, slot, config, updated)
  {
    hide VariableWins, SetString, SetPath, SetParsed, SetBool;
    match slot {
      case SourceLabel => StringWins(environment, "IMMICH_RS_LABEL", config.source.sourceLabel);
      case SourcePath => PathWins(environment, "IMMICH_RS_SOURCE", config.source.source);
    }
  }

  lemma MigrationParts(environment: Environment, layer: MigrationLayer, updated: MigrationLayer)
    requires OverlayMigration(environment, layer) == Ok(updated)
    ensures OverlayMigrationServers(environment, layer.servers) == Ok(updated.servers)
    ensures OverlayMigrationLimits(environment, layer.limits) == Ok(updated.limits)
    ensures OverlayMigrationFiles(environment, layer.files) == Ok(updated.files)
  {
    hide OverlayMigrationServers, OverlayMigrationLimits, OverlayMigrationFiles;
  }

  /** The same for the settings of the other commands. */
  lemma EnvironmentWinsForOtherCommands(json: string -> Option<seq<Argument>>, environment: Environment, config: Effective,
                                        slot: OtherSlot)
    requires Overlay(json, environment, config).Ok?
    ensures OtherWins(environment, slot, config, Overlay(json, environment, config).value)
  {
    OverlaySections(json, environment, config);
    var updated := Overlay(json, environment, config).value;
    MigrationParts(environment, config.migration, updated.migration);
    hide Overlay, OverlaySource, OverlayArchive, OverlayMigration, OverlayMigrationServers, OverlayMigrationLimits;
    hide OverlayMigrationFiles, OtherWins;
    match slot {
      case SourceLabel => SourceWins(json, environment, config, updated, slot);
      case SourcePath => SourceWins(json, environment, config, updated, slot);
      case MigrationSourceServer => MigrationServersWin(environment, config, updated, slot);
      case MigrationDestinationServer => MigrationServersWin(environment, config, updated, slot);
      case MigrationPlan => MigrationFilesWin(environment, config, updated, slot);
      case MigrationCheckpoint => MigrationFilesWin(environment, config, updated, slot);
      case MigrationDryRun => MigrationFilesWin(environment, config, updated, slot);
      case MigrationPageSize => MigrationLimitsWin(environment, config, updated, slot);
      case MigrationMaxAssets => MigrationLimitsWin(environment, config, updated, slot);
      case MigrationMaxAlbums => MigrationLimitsWin(environment, config, updated, slot);
      case MigrationMaxAlbumMemberships => MigrationLimitsWin(environment, config, updated, slot);
      case MigrationMaxAssetBytes => MigrationLimitsWin(environment, config, updated, slot);
      case MigrationMaxTotalBytes => MigrationLimitsWin(environment, config, updated, slot);
      case _ => ArchiveWins(environment, config, updated, slot);
    }
  }

  /** The list of inputs comes from its variable, read as JSON, when that is set. */
  lemma EnvironmentWinsForInputs(json: string -> Option<seq<Argument>>, environment: Environment, config: Effective)
    requires Overlay(json, environment, config).Ok?
    ensures var inputs := Overlay(json, environment, config).value.source.inputs;
      if INPUTS_VARIABLE in environment then
        environment[INPUTS_VARIABLE].Unicode? && inputs.Some? && inputs == json(environment[INPUTS_VARIABLE].text)
      else inputs == config.source.inputs
  {
    OverlaySections(json, environment, config);
    hide Overlay, OverlayImmich, OverlayScan, OverlayLimits, OverlayAlbums, OverlayPicasa, OverlayUpload, OverlayExecution;
    hide OverlayArchive, OverlayMigration;
  }

  // ---------------------------------------------------------------- the configuration object

  /** The effective configuration, updated in place by the environment. */
  class EffectiveConfig {
    var immich: ImmichLayer
    var source: SourceLayer
    var scan: ScanLayer
    var limits: LimitLayer
    var albums: AlbumLayer
    var picasa: PicasaLayer
    var upload: UploadLayer
    var execution: ExecutionLayer
    var archive: ArchiveLayer
    var migration: MigrationLayer

    function Contents(): Effective
      reads this
    {
      Effective(immich, source, scan, limits, albums, picasa, upload, execution, archive, migration)
    }

    constructor (config: Effective)
      ensures Contents() == config
    {
      immich := config.immich;
      source := config.source;
      scan := config.scan;
      limits := config.limits;
      albums := config.albums;
      picasa := config.picasa;
      upload := config.upload;
      execution := config.execution;
      archive := config.archive;
      migration := config.migration;
    }

    /** `overlay` (environment.rs lines 81-142): after an error the object is not used again. */
    method OverlayEnvironment(json: string -> Option<seq<Argument>>, environment: Environment) returns (r: Result<(), Usage>)
      modifies this
      ensures match Overlay(json, environment, old(Contents()))
        case Ok(updated) => r.Ok? && Contents() == updated
        case Err(usage) => r == Err(usage)
    {
      hide OverlayImmich, OverlaySource, OverlayScan, OverlayLimits, OverlayAlbums, OverlayPicasa, OverlayUpload, OverlayExecution;
      hide OverlayArchive, OverlayMigration;
      immich :- OverlayImmich(environment, immich);
      source :- OverlaySource(json, environment, source);
      scan :- OverlayScan(environment, scan);
      limits :- OverlayLimits(environment, limits);
      albums :- OverlayAlbums(environment, albums);
      picasa :- OverlayPicasa(environment, picasa);
      upload :- OverlayUpload(environment, upload);
      execution :- OverlayExecution(environment, execution);
      archive :- OverlayArchive(environment, archive);
      migration :- OverlayMigration(environment, migration);
      return Ok(());
    }
  }

  // ---------------------------------------------------------------- the configuration argument

  datatype Extracted = Extracted(path: Option<Argument>, rest: seq<Argument>)

  const CONFIG := Unicode("--config")

  /** The loop of `extract_config_argument`. */
  function Extract(arguments: seq<Argument>, path: Option<Argument>): Result<Extracted, Usage>
    decreases |arguments|
  {
    if |arguments| == 0 then Ok(Extracted(path, []))
    else if arguments[0] == CONFIG then
      if path.Some? then Err(Usage("--config may be supplied only once"))
      else if |arguments| < 2 then Err(Usage("--config requires a path"))
      else Extract(arguments[2..], Some(arguments[1]))
    else
      var tail :- Extract(arguments[1..], path);
      Ok(tail.(rest := [arguments[0]] + tail.rest))
  }

  /** Arguments with the option put in at a place. */
  function WithConfig(rest: seq<Argument>, at: nat, path: Argument): seq<Argument>
    requires at <= |rest|
  {
    rest[..at] + [CONFIG, path] + rest[at..]
  }

  lemma {:induction false} WithoutConfig(arguments: seq<Argument>, path: Option<Argument>)
    ensures CONFIG !in arguments ==> Extract(arguments, path) == Ok(Extracted(path, arguments))
    decreases |arguments|
  {
    if |arguments| > 0 {
      WithoutConfig(arguments[1..], path);
      assert arguments == [arguments[0]] + arguments[1..];
    }
  }

  lemma {:induction false} AfterConfig(arguments: seq<Argument>, path: Argument)
    ensures Extract(arguments, Some(path)).Ok? ==>
      CONFIG !in arguments && Extract(arguments, Some(path)).value == Extracted(Some(path), arguments)
    decreases |arguments|
  {
    if |arguments| > 0 && arguments[0] != CONFIG {
      AfterConfig(arguments[1..], path);
      assert arguments == [arguments[0]] + arguments[1..];
    }
  }

  lemma WithConfigFront(first: Argument, rest: seq<Argument>, at: nat, path: Argument)
    requires at <= |rest|
    ensures [first] + WithConfig(rest, at, path) == WithConfig([first] + rest, at + 1, path)
  {
  }

  /** What is taken out is exactly one option with its path, or nothing when there is none. */
  lemma {:induction false} ExtractTakesOnePairOut(arguments: seq<Argument>)
    ensures Extract(arguments, None).Ok? ==>
      var extracted := Extract(arguments, None).value;
      && CONFIG !in extracted.rest
      && (extracted.path.None? ==> extracted.rest == arguments)
      && (extracted.path.Some? ==>
            exists at: nat :: at <= |extracted.rest| && arguments == WithConfig(extracted.rest, at, extracted.path.value))
    decreases |arguments|
  {
    if |arguments| > 0 && Extract(arguments, None).Ok? {
      var extracted := Extract(arguments, None).value;
      if arguments[0] == CONFIG {
        AfterConfig(arguments[2..], arguments[1]);
        assert arguments == WithConfig(extracted.rest, 0, arguments[1]);
      } else {
        ExtractTakesOnePairOut(arguments[1..]);
        var tail := Extract(arguments[1..], None).value;
        assert arguments == [arguments[0]] + arguments[1..];
        if extracted.path.Some? {
          var at: nat :| at <= |tail.rest| && arguments[1..] == WithConfig(tail.rest, at, tail.path.value);
          WithConfigFront(arguments[0], tail.rest, at, tail.path.value);
        }
      }
    }
  }

  /** Putting the option in anywhere among other arguments and extracting gives both back. */
  lemma {:induction false} ExtractInvertsInsertion(rest: seq<Argument>, at: nat, path: Argument)
    requires at <= |rest| && CONFIG !in rest
    ensures Extract(WithConfig(rest, at, path), None) == Ok(Extracted(Some(path), rest))
    decreases at
  {
    var arguments := WithConfig(rest, at, path);
    if at == 0 {
      assert arguments[2..] == rest;
      WithoutConfig(rest, Some(path));
    } else {
      assert arguments[0] == rest[0] && arguments[1..] == WithConfig(rest[1..], at - 1, path);
      ExtractInvertsInsertion(rest[1..], at - 1, path);
      assert rest == [rest[0]] + rest[1..];
    }
  }

  /** `extract_config_argument` (lines 178-200). */
  method ExtractConfigArgument(arguments: seq<Argument>) returns (r: Result<Extracted, Usage>)
    ensures r == Extract(arguments, None)
  {
    var path: Option<Argument>, rest: seq<Argument>, index := None, [], 0;
    assert arguments[0..] == arguments;
    ghost var whole := Extract(arguments, None);
    assert whole.Ok? ==> rest + whole.value.rest == whole.value.rest;
    while index < |arguments|
      invariant 0 <= index <= |arguments|
      invariant match Extract(arguments[index..], path)
                case Err(usage) => whole == Err(usage)
                case Ok(tail) => whole == Ok(tail.(rest := rest + tail.rest))
    {
      var left := arguments[index..];
      assert left[1..] == arguments[index + 1..];
      if arguments[index] == CONFIG {
        if path.Some? {
          return Err(Usage("--config may be supplied only once"));
        }
        if index + 1 >= |arguments| {
          return Err(Usage("--config requires a path"));
        }
        assert left[2..] == arguments[index + 2..];
        path := Some(arguments[index + 1]);
        index := index + 2;
      } else {
        ghost var tail := Extract(left[1..], path);
        assert tail.Ok? ==> (rest + [left[0]]) + tail.value.rest == rest + ([left[0]] + tail.value.rest);
        rest := rest + [arguments[index]];
        index := index + 1;
      }
    }
    assert rest + [] == rest;
    return Ok(Extracted(path, rest));
  }

  // ---------------------------------------------------------------- known variables

  const PREFIX := "IMMICH_RS_"

  const SCAN_NAMES := {
    "IMMICH_RS_BUFFER_BYTES", "IMMICH_RS_CASE_SENSITIVE", "IMMICH_RS_COMPRESSION_RATIO_GRACE_BYTES",
    "IMMICH_RS_MAX_ARCHIVES", "IMMICH_RS_MAX_ARCHIVE_ENTRY_BYTES", "IMMICH_RS_MAX_COMPRESSION_RATIO",
    "IMMICH_RS_MAX_DIRECTORY_ENTRIES", "IMMICH_RS_MAX_ENTRIES", "IMMICH_RS_MAX_PATH_BYTES"}

  const ALBUM_NAMES := {
    "IMMICH_RS_ALBUM_MODE", "IMMICH_RS_ALBUM_PATH_JOINER", "IMMICH_RS_CA_CERTIFICATE", "IMMICH_RS_PICASA_ALBUMS",
    "IMMICH_RS_PICASA_FILENAME_DATE", "IMMICH_RS_SERVER"}

  const UPLOAD_NAMES := {
    "IMMICH_RS_CONCURRENCY", "IMMICH_RS_MAX_ATTEMPTS_PER_OPERATION", "IMMICH_RS_MAX_RETRIES_PER_RUN",
    "IMMICH_RS_RETRY_BASE_DELAY_MS", "IMMICH_RS_RETRY_DELAY_CAP_MS", "IMMICH_RS_UPLOAD_CHECKPOINT",
    "IMMICH_RS_UPLOAD_DRY_RUN", "IMMICH_RS_UPLOAD_PLAN", "IMMICH_RS_VERIFICATION_BUFFER_BYTES"}

  const ARCHIVE_NAMES := {
    "IMMICH_RS_ARCHIVE_DESTINATION", "IMMICH_RS_ARCHIVE_INCLUDE_TRASHED", "IMMICH_RS_ARCHIVE_MANIFEST",
    "IMMICH_RS_ARCHIVE_MAX_ASSETS", "IMMICH_RS_ARCHIVE_PAGE_SIZE", "IMMICH_RS_ARCHIVE_SELECTION", "IMMICH_RS_LABEL",
    "IMMICH_RS_SOURCE"}

  const MIGRATION_NAMES := {
    "IMMICH_RS_MIGRATION_CHECKPOINT", "IMMICH_RS_MIGRATION_DESTINATION_SERVER", "IMMICH_RS_MIGRATION_DRY_RUN",
    "IMMICH_RS_MIGRATION_MAX_ALBUMS", "IMMICH_RS_MIGRATION_MAX_ALBUM_MEMBERSHIPS", "IMMICH_RS_MIGRATION_MAX_ASSETS",
    "IMMICH_RS_MIGRATION_MAX_ASSET_BYTES", "IMMICH_RS_MIGRATION_MAX_TOTAL_BYTES", "IMMICH_RS_MIGRATION_PAGE_SIZE",
    "IMMICH_RS_MIGRATION_PLAN", "IMMICH_RS_MIGRATION_SOURCE_SERVER"}

  const API_KEYS := {
    "IMMICH_RS_API_KEY", "IMMICH_RS_API_KEY_FILE", "IMMICH_RS_SOURCE_API_KEY", "IMMICH_RS_SOURCE_API_KEY_FILE",
    "IMMICH_RS_DESTINATION_API_KEY", "IMMICH_RS_DESTINATION_API_KEY_FILE"}

  const UPLOAD_SOURCE_VARIABLE := "IMMICH_RS_UPLOAD_SOURCE"

  /** Variables that are no setting of their own. */
  const SINGLE_NAMES := {INPUTS_VARIABLE, CONFIG_VARIABLE, UPLOAD_SOURCE_VARIABLE}

  const KNOWN_NAMES :=
    SCAN_NAMES + ALBUM_NAMES + UPLOAD_NAMES + ARCHIVE_NAMES + MIGRATION_NAMES + API_KEYS + SINGLE_NAMES

  predicate HasPrefix(name: string) {
    |PREFIX| <= |name| && name[..|PREFIX|] == PREFIX
  }

  /** `validate_names`: every variable with the prefix is a known one. */
  predicate ValidNames(environment: Environment) {
    forall name :: name in environment && HasPrefix(name) ==> name in KNOWN_NAMES
  }

  /** The loop over the process environment (environment.rs lines 63-75), in any order. */
  method ValidateNames(environment: Environment) returns (valid: bool)
    ensures valid == ValidNames(environment)
  {
    hide HasPrefix;
    var remaining := environment.Keys;
    while remaining != {}
      invariant remaining <= environment.Keys
      invariant forall name :: name in environment.Keys - remaining && HasPrefix(name) ==> name in KNOWN_NAMES
      decreases |remaining|
    {
      var name :| name in remaining;
      if HasPrefix(name) && name !in KNOWN_NAMES {
        return false;
      }
      remaining := remaining - {name};
    }
    return true;
  }

  /** Every variable a setting is read from is known, so setting it is never refused. */
  lemma SettingsAreKnown(slot: Slot, other: OtherSlot)
    ensures VariableOf(slot).Some? ==> VariableOf(slot).value in KNOWN_NAMES
    ensures OtherVariable(other) in KNOWN_NAMES
  {
  }

  /** What the program reads from the environment. */
  ghost predicate IsRead(name: string) {
    || (exists slot: Slot :: VariableOf(slot) == Some(name))
    || (exists other: OtherSlot :: OtherVariable(other) == name)
    || name in SINGLE_NAMES || name in API_KEYS
  }

  lemma ScanNamesAreRead(name: string)
    requires name in SCAN_NAMES
    ensures IsRead(name)
  {
    if name == "IMMICH_RS_BUFFER_BYTES" {
      assert VariableOf(BufferBytes) == Some(name);
    } else if name == "IMMICH_RS_CASE_SENSITIVE" {
      assert VariableOf(CaseSensitive) == Some(name);
    } else if name == "IMMICH_RS_COMPRESSION_RATIO_GRACE_BYTES" {
      assert VariableOf(CompressionRatioGraceBytes) == Some(name);
    } else if name == "IMMICH_RS_MAX_ARCHIVES" {
      assert VariableOf(MaxArchives) == Some(name);
    } else if name == "IMMICH_RS_MAX_ARCHIVE_ENTRY_BYTES" {
      assert VariableOf(MaxArchiveEntryBytes) == Some(name);
    } else if name == "IMMICH_RS_MAX_COMPRESSION_RATIO" {
      assert VariableOf(MaxCompressionRatio) == Some(name);
    } else if name == "IMMICH_RS_MAX_DIRECTORY_ENTRIES" {
      assert VariableOf(MaxDirectoryEntries) == Some(name);
    } else if name == "IMMICH_RS_MAX_ENTRIES" {
      assert VariableOf(MaxEntries) == Some(name);
    } else if name == "IMMICH_RS_MAX_PATH_BYTES" {
      assert VariableOf(MaxPathBytes) == Some(name);
    }
  }

  lemma AlbumNamesAreRead(name: string)
    requires name in ALBUM_NAMES
    ensures IsRead(name)
  {
    if name == "IMMICH_RS_ALBUM_MODE" {
      assert VariableOf(AlbumModeSlot) == Some(name);
    } else if name == "IMMICH_RS_ALBUM_PATH_JOINER" {
      assert VariableOf(AlbumPathJoiner) == Some(name);
    } else if name == "IMMICH_RS_CA_CERTIFICATE" {
      assert VariableOf(CaCertificate) == Some(name);
    } else if name == "IMMICH_RS_PICASA_ALBUMS" {
      assert VariableOf(PicasaAlbums) == Some(name);
    } else if name == "IMMICH_RS_PICASA_FILENAME_DATE" {
      assert VariableOf(FilenameDate) == Some(name);
    } else if name == "IMMICH_RS_SERVER" {
      assert VariableOf(ServerSlot) == Some(name);
    }
  }

  lemma UploadNamesAreRead(name: string)
    requires name in UPLOAD_NAMES
    ensures IsRead(name)
  {
    if name == "IMMICH_RS_CONCURRENCY" {
      assert VariableOf(Concurrency) == Some(name);
    } else if name == "IMMICH_RS_MAX_ATTEMPTS_PER_OPERATION" {
      assert VariableOf(MaxAttempts) == Some(name);
    } else if name == "IMMICH_RS_MAX_RETRIES_PER_RUN" {
      assert VariableOf(MaxRetries) == Some(name);
    } else if name == "IMMICH_RS_RETRY_BASE_DELAY_MS" {
      assert VariableOf(RetryBaseDelay) == Some(name);
    } else if name == "IMMICH_RS_RETRY_DELAY_CAP_MS" {
      assert VariableOf(RetryDelayCap) == Some(name);
    } else if name == "IMMICH_RS_UPLOAD_CHECKPOINT" {
      assert VariableOf(Checkpoint) == Some(name);
    } else if name == "IMMICH_RS_UPLOAD_DRY_RUN" {
      assert VariableOf(DryRun) == Some(name);
    } else if name == "IMMICH_RS_UPLOAD_PLAN" {
      assert VariableOf(Plan) == Some(name);
    } else if name == "IMMICH_RS_VERIFICATION_BUFFER_BYTES" {
      assert VariableOf(VerificationBufferBytes) == Some(name);
    }
  }

  lemma ArchiveNamesAreRead(name: string)
    requires name in ARCHIVE_NAMES
    ensures IsRead(name)
  {
    if name == "IMMICH_RS_ARCHIVE_DESTINATION" {
      assert OtherVariable(ArchiveDestination) == name;
    } else if name == "IMMICH_RS_ARCHIVE_INCLUDE_TRASHED" {
      assert OtherVariable(ArchiveIncludeTrashed) == name;
    } else if name == "IMMICH_RS_ARCHIVE_MANIFEST" {
      assert OtherVariable(ArchiveManifest) == name;
    } else if name == "IMMICH_RS_ARCHIVE_MAX_ASSETS" {
      assert OtherVariable(ArchiveMaxAssets) == name;
    } else if name == "IMMICH_RS_ARCHIVE_PAGE_SIZE" {
      assert OtherVariable(ArchivePageSize) == name;
    } else if name == "IMMICH_RS_ARCHIVE_SELECTION" {
      assert OtherVariable(ArchiveSelection) == name;
    } else if name == "IMMICH_RS_LABEL" {
      assert OtherVariable(SourceLabel) == name;
    } else if name == "IMMICH_RS_SOURCE" {
      assert OtherVariable(SourcePath) == name;
    }
  }

  lemma MigrationNamesAreRead(name: string)
    requires name in MIGRATION_NAMES
    ensures IsRead(name)
  {
    if name == "IMMICH_RS_MIGRATION_CHECKPOINT" {
      assert OtherVariable(MigrationCheckpoint) == name;
    } else if name == "IMMICH_RS_MIGRATION_DESTINATION_SERVER" {
      assert OtherVariable(MigrationDestinationServer) == name;
    } else if name == "IMMICH_RS_MIGRATION_DRY_RUN" {
      assert OtherVariable(MigrationDryRun) == name;
    } else if name == "IMMICH_RS_MIGRATION_MAX_ALBUMS" {
      assert OtherVariable(MigrationMaxAlbums) == name;
    } else if name == "IMMICH_RS_MIGRATION_MAX_ALBUM_MEMBERSHIPS" {
      assert OtherVariable(MigrationMaxAlbumMemberships) == name;
    } else if name == "IMMICH_RS_MIGRATION_MAX_ASSETS" {
      assert OtherVariable(MigrationMaxAssets) == name;
    } else if name == "IMMICH_RS_MIGRATION_MAX_ASSET_BYTES" {
      assert OtherVariable(MigrationMaxAssetBytes) == name;
    } else if name == "IMMICH_RS_MIGRATION_MAX_TOTAL_BYTES" {
      assert OtherVariable(MigrationMaxTotalBytes) == name;
    } else if name == "IMMICH_RS_MIGRATION_PAGE_SIZE" {
      assert OtherVariable(MigrationPageSize) == name;
    } else if name == "IMMICH_RS_MIGRATION_PLAN" {
      assert OtherVariable(MigrationPlan) == name;
    } else if name == "IMMICH_RS_MIGRATION_SOURCE_SERVER" {
      assert OtherVariable(MigrationSourceServer) == name;
    }
  }

  /** No known variable is dead: each is read for a setting, the inputs, the file or a key. */
  lemma EveryKnownNameIsRead(name: string)
    requires name in KNOWN_NAMES
    ensures IsRead(name)
  {
    if name in SINGLE_NAMES || name in API_KEYS {
    } else if name in SCAN_NAMES {
      hide IsRead;
      ScanNamesAreRead(name);
    } else if name in ALBUM_NAMES {
      hide IsRead;
      AlbumNamesAreRead(name);
    } else if name in UPLOAD_NAMES {
      hide IsRead;
      UploadNamesAreRead(name);
    } else if name in ARCHIVE_NAMES {
      hide IsRead;
      ArchiveNamesAreRead(name);
    } else if name in MIGRATION_NAMES {
      hide IsRead;
      MigrationNamesAreRead(name);
    }
  }

  // ---------------------------------------------------------------- loading

  datatype Loaded = Loaded(config: Effective, arguments: seq<Argument>)

  /** The file named on the command line, else in the environment, else none. */
  function ChosenFile(environment: Environment, path: Option<Argument>): Result<Option<Argument>, Usage> {
    var variable :- Variable(environment, CONFIG_VARIABLE);
    Ok(if path.Some? then path else if variable.Some? then Some(Unicode(variable.value)) else None)
  }

  function FileLayer(readers: Readers, environment: Environment, path: Option<Argument>): Result<Effective, Usage> {
    var chosen :- ChosenFile(environment, path);
    if chosen.Some? then LoadFile(readers, chosen.value) else Ok(EMPTY)
  }

  function Load(readers: Readers, environment: Environment, arguments: seq<Argument>): Result<Loaded, Usage> {
    var extracted :- Extract(arguments, None);
    if !ValidNames(environment) then Err(Usage("unknown immich-rs environment variable"))
    else
      var file :- FileLayer(readers, environment, extracted.path);
      var config :- Overlay(readers.json, environment, file);
      Ok(Loaded(config, extracted.rest))
  }
}

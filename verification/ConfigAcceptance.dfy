/** When a configuration loads: which files and which environments are accepted, setting by setting. */
module ConfigAcceptance {
  import opened ConfigFile
  import opened Configuration
  import opened LayeredConfig
  import opened Remote
  import opened Settings
  import SourceOptions
  import opened Wrappers

  // ---------------------------------------------------------------- the keys of the file

  datatype ValueType = Whole | Small | Truth | Words | WordList

  /** A whole number fits 64 bits, a small one 32. */
  predicate Fits(value: Toml, expected: ValueType) {
    match expected
    case Whole => value.TomlInteger? && 0 <= value.number < 0x1_0000_0000_0000_0000
    case Small => value.TomlInteger? && 0 <= value.number < 0x1_0000_0000
    case Truth => value.TomlBoolean?
    case Words => value.TomlString?
    case WordList => value.TomlArray? && forall item :: item in value.items ==> item.TomlString?
  }

  function ImmichType(key: string): Option<ValueType> {
    match key
    case "server" => Some(Words)
    case "ca_certificate" => Some(Words)
    case _ => None
  }

  function SourceType(key: string): Option<ValueType> {
    match key
    case "label" => Some(Words)
    case "source" => Some(Words)
    case "inputs" => Some(WordList)
    case _ => None
  }

  function ScanType(key: string): Option<ValueType> {
    match key
    case "buffer_bytes" => Some(Whole)
    case "max_entries" => Some(Whole)
    case "max_directory_entries" => Some(Whole)
    case "max_path_bytes" => Some(Whole)
    case "case_sensitive" => Some(Truth)
    case _ => None
  }

  function LimitType(key: string): Option<ValueType> {
    match key
    case "max_archives" => Some(Whole)
    case "max_archive_entry_bytes" => Some(Whole)
    case "max_compression_ratio" => Some(Whole)
    case "compression_ratio_grace_bytes" => Some(Whole)
    case _ => None
  }

  function AppleType(key: string): Option<ValueType> {
    match key
    case "album_mode" => Some(Words)
    case "album_path_joiner" => Some(Words)
    case _ => None
  }

  function PicasaType(key: string): Option<ValueType> {
    match key
    case "albums" => Some(Truth)
    case "filename_date" => Some(Truth)
    case _ => None
  }

  function UploadType(key: string): Option<ValueType> {
    match key
    case "plan" => Some(Words)
    case "source" => Some(Words)
    case "checkpoint" => Some(Words)
    case "dry_run" => Some(Truth)
    case _ => None
  }

  function ExecutionType(key: string): Option<ValueType> {
    match key
    case "verification_buffer_bytes" => Some(Whole)
    case "concurrency" => Some(Whole)
    case "max_attempts_per_operation" => Some(Small)
    case "max_retries_per_run" => Some(Small)
    case "retry_base_delay_ms" => Some(Whole)
    case "retry_delay_cap_ms" => Some(Whole)
    case _ => None
  }

  function ArchiveType(key: string): Option<ValueType> {
    match key
    case "selection" => Some(Words)
    case "include_trashed" => Some(Truth)
    case "page_size" => Some(Whole)
    case "max_assets" => Some(Whole)
    case "manifest" => Some(Words)
    case "destination" => Some(Words)
    case _ => None
  }

  function ServersType(key: string): Option<ValueType> {
    match key
    case "source_server" => Some(Words)
    case "destination_server" => Some(Words)
    case _ => None
  }

  function MigrationLimitType(key: string): Option<ValueType> {
    match key
    case "page_size" => Some(Whole)
    case "max_assets" => Some(Whole)
    case "max_albums" => Some(Whole)
    case "max_album_memberships" => Some(Whole)
    case "max_asset_bytes" => Some(Whole)
    case "max_total_bytes" => Some(Whole)
    case _ => None
  }

  function MigrationFileType(key: string): Option<ValueType> {
    match key
    case "plan" => Some(Words)
    case "checkpoint" => Some(Words)
    case "dry_run" => Some(Truth)
    case _ => None
  }

  /** The type a key has in a section; a section has no other keys. */
  function KeyType(section: string, key: string): Option<ValueType> {
    match section
    case "immich" => ImmichType(key)
    case "scan" => OrElse(SourceType(key), OrElse(ScanType(key), LimitType(key)))
    case "apple_photos" => AppleType(key)
    case "picasa" => PicasaType(key)
    case "upload" => OrElse(UploadType(key), ExecutionType(key))
    case "archive" => ArchiveType(key)
    case "migration" => OrElse(ServersType(key), OrElse(MigrationLimitType(key), MigrationFileType(key)))
    case _ => None
  }

  predicate IsSection(name: string) {
    name in {"immich", "scan", "apple_photos", "picasa", "upload", "archive", "migration"}
  }

  /** Every key of the table is one of its section, with a value of its type. */
  predicate IsTable(section: string, table: Table) {
    forall key :: key in table ==> KeyType(section, key).Some? && Fits(table[key], KeyType(section, key).value)
  }

  /** A document of schema version 1 whose other entries are tables of the known sections. */
  predicate IsConfiguration(document: Table) {
    && "schema_version" in document && document["schema_version"] == TomlInteger(1)
    && forall name :: name in document && name != "schema_version" ==>
         IsSection(name) && document[name].TomlTable? && IsTable(name, document[name].table)
  }

  // ---------------------------------------------------------------- values

  predicate FitsAt(table: Table, key: string, expected: ValueType) {
    key in table ==> Fits(table[key], expected)
  }

  lemma NumberExactly(table: Table, key: string)
    ensures NumberAt(table, key, U64_MAX).Ok? <==> FitsAt(table, key, Whole)
    ensures NumberAt(table, key, U32_MAX).Ok? <==> FitsAt(table, key, Small)
  {
  }

  lemma FlagExactly(table: Table, key: string)
    ensures FlagAt(table, key).Ok? <==> FitsAt(table, key, Truth)
  {
  }

  lemma TextExactly(table: Table, key: string)
    ensures TextAt(table, key).Ok? <==> FitsAt(table, key, Words)
    ensures PathAt(table, key).Ok? <==> FitsAt(table, key, Words)
  {
  }

  lemma {:induction false} PathsOfExactly(items: seq<Toml>)
    ensures PathsOf(items).Some? <==> forall item :: item in items ==> item.TomlString?
  {
    if |items| > 0 {
      PathsOfExactly(items[1..]);
      assert items == [items[0]] + items[1..];
    }
  }

  lemma PathsExactly(table: Table, key: string)
    ensures PathsAt(table, key).Ok? <==> FitsAt(table, key, WordList)
  {
    if key in table && table[key].TomlArray? {
      PathsOfExactly(table[key].items);
    }
  }

  // ---------------------------------------------------------------- one group of keys

  /** Every key of a group that is there has a value of its type. */
  predicate GroupFits(table: Table, types: string -> Option<ValueType>) {
    forall key :: key in table && types(key).Some? ==> Fits(table[key], types(key).value)
  }

  lemma ParseImmichExactly(table: Table)
    ensures ParseImmich(table).Ok? <==> GroupFits(table, ImmichType)
  {
    hide NumberAt, FlagAt, TextAt, PathAt, PathsAt, Fits;
    TextExactly(table, "server");
    TextExactly(table, "ca_certificate");
    if GroupFits(table, ImmichType) {
      assert "server" in table ==> ImmichType("server") == Some(Words);
      assert "ca_certificate" in table ==> ImmichType("ca_certificate") == Some(Words);
    }
  }

  lemma ParseSourceExactly(table: Table)
    ensures ParseSource(table).Ok? <==> GroupFits(table, SourceType)
  {
    hide NumberAt, FlagAt, TextAt, PathAt, PathsAt, Fits;
    TextExactly(table, "label");
    TextExactly(table, "source");
    PathsExactly(table, "inputs");
    if GroupFits(table, SourceType) {
      assert "label" in table ==> SourceType("label") == Some(Words);
      assert "source" in table ==> SourceType("source") == Some(Words);
      assert "inputs" in table ==> SourceType("inputs") == Some(WordList);
    }
  }

  lemma ParseScanExactly(table: Table)
    ensures ParseScan(table).Ok? <==> GroupFits(table, ScanType)
  {
    hide NumberAt, FlagAt, TextAt, PathAt, PathsAt, Fits;
    NumberExactly(table, "buffer_bytes");
    NumberExactly(table, "max_entries");
    NumberExactly(table, "max_directory_entries");
    NumberExactly(table, "max_path_bytes");
    FlagExactly(table, "case_sensitive");
    if GroupFits(table, ScanType) {
      assert "buffer_bytes" in table ==> ScanType("buffer_bytes") == Some(Whole);
      assert "max_entries" in table ==> ScanType("max_entries") == Some(Whole);
      assert "max_directory_entries" in table ==> ScanType("max_directory_entries") == Some(Whole);
      assert "max_path_bytes" in table ==> ScanType("max_path_bytes") == Some(Whole);
      assert "case_sensitive" in table ==> ScanType("case_sensitive") == Some(Truth);
    }
  }

  lemma ParseLimitsExactly(table: Table)
    ensures ParseLimits(table).Ok? <==> GroupFits(table, LimitType)
  {
    hide NumberAt, FlagAt, TextAt, PathAt, PathsAt, Fits;
    NumberExactly(table, "max_archives");
    NumberExactly(table, "max_archive_entry_bytes");
    NumberExactly(table, "max_compression_ratio");
    NumberExactly(table, "compression_ratio_grace_bytes");
    if GroupFits(table, LimitType) {
      assert "max_archives" in table ==> LimitType("max_archives") == Some(Whole);
      assert "max_archive_entry_bytes" in table ==> LimitType("max_archive_entry_bytes") == Some(Whole);
      assert "max_compression_ratio" in table ==> LimitType("max_compression_ratio") == Some(Whole);
      assert "compression_ratio_grace_bytes" in table ==> LimitType("compression_ratio_grace_bytes") == Some(Whole);
    }
  }

  lemma ParseAlbumsExactly(table: Table)
    ensures ParseAlbums(table).Ok? <==> GroupFits(table, AppleType)
  {
    hide NumberAt, FlagAt, TextAt, PathAt, PathsAt, Fits;
    TextExactly(table, "album_mode");
    TextExactly(table, "album_path_joiner");
    if GroupFits(table, AppleType) {
      assert "album_mode" in table ==> AppleType("album_mode") == Some(Words);
      assert "album_path_joiner" in table ==> AppleType("album_path_joiner") == Some(Words);
    }
  }

  lemma ParsePicasaExactly(table: Table)
    ensures ParsePicasa(table).Ok? <==> GroupFits(table, PicasaType)
  {
    hide NumberAt, FlagAt, TextAt, PathAt, PathsAt, Fits;
    FlagExactly(table, "albums");
    FlagExactly(table, "filename_date");
    if GroupFits(table, PicasaType) {
      assert "albums" in table ==> PicasaType("albums") == Some(Truth);
      assert "filename_date" in table ==> PicasaType("filename_date") == Some(Truth);
    }
  }

  lemma ParseUploadExactly(table: Table)
    ensures ParseUpload(table).Ok? <==> GroupFits(table, UploadType)
  {
    hide NumberAt, FlagAt, TextAt, PathAt, PathsAt, Fits;
    TextExactly(table, "plan");
    TextExactly(table, "source");
    TextExactly(table, "checkpoint");
    FlagExactly(table, "dry_run");
    if GroupFits(table, UploadType) {
      assert "plan" in table ==> UploadType("plan") == Some(Words);
      assert "source" in table ==> UploadType("source") == Some(Words);
      assert "checkpoint" in table ==> UploadType("checkpoint") == Some(Words);
      assert "dry_run" in table ==> UploadType("dry_run") == Some(Truth);
    }
  }

  lemma ParseExecutionExactly(table: Table)
    ensures ParseExecution(table).Ok? <==> GroupFits(table, ExecutionType)
  {
    hide NumberAt, FlagAt, TextAt, PathAt, PathsAt, Fits;
    NumberExactly(table, "verification_buffer_bytes");
    NumberExactly(table, "concurrency");
    NumberExactly(table, "max_attempts_per_operation");
    NumberExactly(table, "max_retries_per_run");
    NumberExactly(table, "retry_base_delay_ms");
    NumberExactly(table, "retry_delay_cap_ms");
    if GroupFits(table, ExecutionType) {
      assert "verification_buffer_bytes" in table ==> ExecutionType("verification_buffer_bytes") == Some(Whole);
      assert "concurrency" in table ==> ExecutionType("concurrency") == Some(Whole);
      assert "max_attempts_per_operation" in table ==> ExecutionType("max_attempts_per_operation") == Some(Small);
      assert "max_retries_per_run" in table ==> ExecutionType("max_retries_per_run") == Some(Small);
      assert "retry_base_delay_ms" in table ==> ExecutionType("retry_base_delay_ms") == Some(Whole);
      assert "retry_delay_cap_ms" in table ==> ExecutionType("retry_delay_cap_ms") == Some(Whole);
    }
  }

  lemma ParseArchiveExactly(table: Table)
    ensures ParseArchive(table).Ok? <==> GroupFits(table, ArchiveType)
  {
    hide NumberAt, FlagAt, TextAt, PathAt, PathsAt, Fits;
    TextExactly(table, "selection");
    FlagExactly(table, "include_trashed");
    NumberExactly(table, "page_size");
    NumberExactly(table, "max_assets");
    TextExactly(table, "manifest");
    TextExactly(table, "destination");
    if GroupFits(table, ArchiveType) {
      assert "selection" in table ==> ArchiveType("selection") == Some(Words);
      assert "include_trashed" in table ==> ArchiveType("include_trashed") == Some(Truth);
      assert "page_size" in table ==> ArchiveType("page_size") == Some(Whole);
      assert "max_assets" in table ==> ArchiveType("max_assets") == Some(Whole);
      assert "manifest" in table ==> ArchiveType("manifest") == Some(Words);
      assert "destination" in table ==> ArchiveType("destination") == Some(Words);
    }
  }

  lemma ParseServersExactly(table: Table)
    ensures ParseServers(table).Ok? <==> GroupFits(table, ServersType)
  {
    hide NumberAt, FlagAt, TextAt, PathAt, PathsAt, Fits;
    TextExactly(table, "source_server");
    TextExactly(table, "destination_server");
    if GroupFits(table, ServersType) {
      assert "source_server" in table ==> ServersType("source_server") == Some(Words);
      assert "destination_server" in table ==> ServersType("destination_server") == Some(Words);
    }
  }

  lemma ParseMigrationLimitsExactly(table: Table)
    ensures ParseMigrationLimits(table).Ok? <==> GroupFits(table, MigrationLimitType)
  {
    hide NumberAt, FlagAt, TextAt, PathAt, PathsAt, Fits;
    NumberExactly(table, "page_size");
    NumberExactly(table, "max_assets");
    NumberExactly(table, "max_albums");
    NumberExactly(table, "max_album_memberships");
    NumberExactly(table, "max_asset_bytes");
    NumberExactly(table, "max_total_bytes");
    if GroupFits(table, MigrationLimitType) {
      assert "page_size" in table ==> MigrationLimitType("page_size") == Some(Whole);
      assert "max_assets" in table ==> MigrationLimitType("max_assets") == Some(Whole);
      assert "max_albums" in table ==> MigrationLimitType("max_albums") == Some(Whole);
      assert "max_album_memberships" in table ==> MigrationLimitType("max_album_memberships") == Some(Whole);
      assert "max_asset_bytes" in table ==> MigrationLimitType("max_asset_bytes") == Some(Whole);
      assert "max_total_bytes" in table ==> MigrationLimitType("max_total_bytes") == Some(Whole);
    }
  }

  lemma ParseMigrationFilesExactly(table: Table)
    ensures ParseMigrationFiles(table).Ok? <==> GroupFits(table, MigrationFileType)
  {
    hide NumberAt, FlagAt, TextAt, PathAt, PathsAt, Fits;
    TextExactly(table, "plan");
    TextExactly(table, "checkpoint");
    FlagExactly(table, "dry_run");
    if GroupFits(table, MigrationFileType) {
      assert "plan" in table ==> MigrationFileType("plan") == Some(Words);
      assert "checkpoint" in table ==> MigrationFileType("checkpoint") == Some(Words);
      assert "dry_run" in table ==> MigrationFileType("dry_run") == Some(Truth);
    }
  }

  // ---------------------------------------------------------------- the sections

  lemma ImmichKeys(key: string)
    ensures key in IMMICH_KEYS <==> ImmichType(key).Some?
  {
  }

  lemma ImmichTableExactly(table: Table)
    ensures IsTable("immich", table) <==>
            table.Keys <= IMMICH_KEYS && GroupFits(table, ImmichType)
  {
    forall key ensures KeyType("immich", key) == ImmichType(key) {
    }
    forall key ensures key in IMMICH_KEYS <==> KeyType("immich", key).Some? {
      ImmichKeys(key);
    }
    hide KeyType, ImmichType, Fits;
    if IsTable("immich", table) {
      forall key | key in table ensures key in IMMICH_KEYS {
      }
    }
  }

  lemma ScanKeys(key: string)
    ensures key in SCAN_KEYS <==> SourceType(key).Some? || ScanType(key).Some? || LimitType(key).Some?
    ensures !(SourceType(key).Some? && ScanType(key).Some?) && !(SourceType(key).Some? && LimitType(key).Some?) && !(ScanType(key).Some? && LimitType(key).Some?)
  {
  }

  lemma ScanTableExactly(table: Table)
    ensures IsTable("scan", table) <==>
            table.Keys <= SCAN_KEYS && GroupFits(table, SourceType) && GroupFits(table, ScanType) && GroupFits(table, LimitType)
  {
    forall key ensures KeyType("scan", key) == OrElse(SourceType(key), OrElse(ScanType(key), LimitType(key))) {
    }
    forall key ensures key in SCAN_KEYS <==> KeyType("scan", key).Some?
      ensures !(SourceType(key).Some? && ScanType(key).Some?) && !(SourceType(key).Some? && LimitType(key).Some?) && !(ScanType(key).Some? && LimitType(key).Some?)
    {
      ScanKeys(key);
    }
    hide KeyType, SourceType, ScanType, LimitType, Fits;
    if IsTable("scan", table) {
      forall key | key in table ensures key in SCAN_KEYS {
      }
    }
  }

  lemma AppleKeys(key: string)
    ensures key in APPLE_KEYS <==> AppleType(key).Some?
  {
  }

  lemma AppleTableExactly(table: Table)
    ensures IsTable("apple_photos", table) <==>
            table.Keys <= APPLE_KEYS && GroupFits(table, AppleType)
  {
    forall key ensures KeyType("apple_photos", key) == AppleType(key) {
    }
    forall key ensures key in APPLE_KEYS <==> KeyType("apple_photos", key).Some? {
      AppleKeys(key);
    }
    hide KeyType, AppleType, Fits;
    if IsTable("apple_photos", table) {
      forall key | key in table ensures key in APPLE_KEYS {
      }
    }
  }

  lemma PicasaKeys(key: string)
    ensures key in PICASA_KEYS <==> PicasaType(key).Some?
  {
  }

  lemma PicasaTableExactly(table: Table)
    ensures IsTable("picasa", table) <==>
            table.Keys <= PICASA_KEYS && GroupFits(table, PicasaType)
  {
    forall key ensures KeyType("picasa", key) == PicasaType(key) {
    }
    forall key ensures key in PICASA_KEYS <==> KeyType("picasa", key).Some? {
      PicasaKeys(key);
    }
    hide KeyType, PicasaType, Fits;
    if IsTable("picasa", table) {
      forall key | key in table ensures key in PICASA_KEYS {
      }
    }
  }

  lemma UploadKeys(key: string)
    ensures key in UPLOAD_KEYS <==> UploadType(key).Some? || ExecutionType(key).Some?
    ensures !(UploadType(key).Some? && ExecutionType(key).Some?)
  {
  }

  lemma UploadTableExactly(table: Table)
    ensures IsTable("upload", table) <==>
            table.Keys <= UPLOAD_KEYS && GroupFits(table, UploadType) && GroupFits(table, ExecutionType)
  {
    forall key ensures KeyType("upload", key) == OrElse(UploadType(key), ExecutionType(key)) {
    }
    forall key ensures key in UPLOAD_KEYS <==> KeyType("upload", key).Some?
      ensures !(UploadType(key).Some? && ExecutionType(key).Some?)
    {
      UploadKeys(key);
    }
    hide KeyType, UploadType, ExecutionType, Fits;
    if IsTable("upload", table) {
      forall key | key in table ensures key in UPLOAD_KEYS {
      }
    }
  }

  lemma ArchiveKeys(key: string)
    ensures key in ARCHIVE_KEYS <==> ArchiveType(key).Some?
  {
  }

  lemma ArchiveTableExactly(table: Table)
    ensures IsTable("archive", table) <==>
            table.Keys <= ARCHIVE_KEYS && GroupFits(table, ArchiveType)
  {
    forall key ensures KeyType("archive", key) == ArchiveType(key) {
    }
    forall key ensures key in ARCHIVE_KEYS <==> KeyType("archive", key).Some? {
      ArchiveKeys(key);
    }
    hide KeyType, ArchiveType, Fits;
    if IsTable("archive", table) {
      forall key | key in table ensures key in ARCHIVE_KEYS {
      }
    }
  }

  lemma MigrationKeys(key: string)
    ensures key in MIGRATION_KEYS <==> ServersType(key).Some? || MigrationLimitType(key).Some? || MigrationFileType(key).Some?
    ensures !(ServersType(key).Some? && MigrationLimitType(key).Some?) && !(ServersType(key).Some? && MigrationFileType(key).Some?) && !(MigrationLimitType(key).Some? && MigrationFileType(key).Some?)
  {
  }

  lemma MigrationTableExactly(table: Table)
    ensures IsTable("migration", table) <==>
            table.Keys <= MIGRATION_KEYS && GroupFits(table, ServersType) && GroupFits(table, MigrationLimitType) && GroupFits(table, MigrationFileType)
  {
    forall key ensures KeyType("migration", key) == OrElse(ServersType(key), OrElse(MigrationLimitType(key), MigrationFileType(key))) {
    }
    forall key ensures key in MIGRATION_KEYS <==> KeyType("migration", key).Some?
      ensures !(ServersType(key).Some? && MigrationLimitType(key).Some?) && !(ServersType(key).Some? && MigrationFileType(key).Some?) && !(MigrationLimitType(key).Some? && MigrationFileType(key).Some?)
    {
      MigrationKeys(key);
    }
    hide KeyType, ServersType, MigrationLimitType, MigrationFileType, Fits;
    if IsTable("migration", table) {
      forall key | key in table ensures key in MIGRATION_KEYS {
      }
    }
  }

  // ---------------------------------------------------------------- the whole document

  /** A section that is there is a table without unknown keys. */
  predicate SectionFits(document: Table, name: string, known: set<string>) {
    name in document ==> document[name].TomlTable? && document[name].table.Keys <= known
  }

  function TableOf(document: Table, name: string): Table {
    if name in document && document[name].TomlTable? then document[name].table else map[]
  }

  lemma SectionExactly(document: Table, name: string, known: set<string>)
    ensures SectionAt(document, name, known).Ok? <==> SectionFits(document, name, known)
    ensures SectionFits(document, name, known) ==> SectionAt(document, name, known) == Ok(TableOf(document, name))
  {
  }

  function TablesOf(document: Table): Sections {
    Sections(TableOf(document, "immich"), TableOf(document, "scan"), TableOf(document, "apple_photos"),
             TableOf(document, "picasa"), TableOf(document, "upload"),
             TableOf(document, "archive"), TableOf(document, "migration"))
  }

  lemma SectionsExactly(document: Table)
    ensures ReadSections(document).Ok? <==>
            && SectionFits(document, "immich", IMMICH_KEYS)
            && SectionFits(document, "scan", SCAN_KEYS)
            && SectionFits(document, "apple_photos", APPLE_KEYS)
            && SectionFits(document, "picasa", PICASA_KEYS)
            && SectionFits(document, "upload", UPLOAD_KEYS)
            && SectionFits(document, "archive", ARCHIVE_KEYS)
            && SectionFits(document, "migration", MIGRATION_KEYS)
    ensures ReadSections(document).Ok? ==> ReadSections(document).value == TablesOf(document)
  {
    hide SectionAt, SectionFits, TableOf;
    SectionExactly(document, "immich", IMMICH_KEYS);
    SectionExactly(document, "scan", SCAN_KEYS);
    SectionExactly(document, "apple_photos", APPLE_KEYS);
    SectionExactly(document, "picasa", PICASA_KEYS);
    SectionExactly(document, "upload", UPLOAD_KEYS);
    SectionExactly(document, "archive", ARCHIVE_KEYS);
    SectionExactly(document, "migration", MIGRATION_KEYS);
  }

  lemma MigrationLayerExactly(table: Table)
    ensures ParseMigration(table).Ok? <==>
            GroupFits(table, ServersType) && GroupFits(table, MigrationLimitType) && GroupFits(table, MigrationFileType)
  {
    ParseServersExactly(table);
    ParseMigrationLimitsExactly(table);
    ParseMigrationFilesExactly(table);
    hide ParseServers, ParseMigrationLimits, ParseMigrationFiles, GroupFits;
  }

  lemma FromSectionsExactly(sections: Sections)
    ensures FromSections(sections).Ok? <==>
            && GroupFits(sections.immich, ImmichType)
            && GroupFits(sections.scan, SourceType) && GroupFits(sections.scan, ScanType) && GroupFits(sections.scan, LimitType)
            && GroupFits(sections.apple, AppleType)
            && GroupFits(sections.picasa, PicasaType)
            && GroupFits(sections.upload, UploadType) && GroupFits(sections.upload, ExecutionType)
            && GroupFits(sections.archive, ArchiveType)
            && GroupFits(sections.migration, ServersType) && GroupFits(sections.migration, MigrationLimitType) && GroupFits(sections.migration, MigrationFileType)
  {
    ParseImmichExactly(sections.immich);
    ParseSourceExactly(sections.scan);
    ParseScanExactly(sections.scan);
    ParseLimitsExactly(sections.scan);
    ParseAlbumsExactly(sections.apple);
    ParsePicasaExactly(sections.picasa);
    ParseUploadExactly(sections.upload);
    ParseExecutionExactly(sections.upload);
    ParseArchiveExactly(sections.archive);
    MigrationLayerExactly(sections.migration);
    hide ParseImmich, ParseSource, ParseScan, ParseLimits, ParseAlbums, ParsePicasa, ParseUpload, ParseExecution,
         ParseArchive, ParseMigration, GroupFits;
  }

  /** A section, or nothing, that is as it should be. */
  predicate IsOrIsMissing(document: Table, name: string) {
    name in document ==> document[name].TomlTable? && IsTable(name, document[name].table)
  }

  lemma PartExactly(document: Table, name: string, known: set<string>, fits: bool)
    requires IsTable(name, TableOf(document, name)) <==> TableOf(document, name).Keys <= known && fits
    ensures SectionFits(document, name, known) && fits <==> IsOrIsMissing(document, name)
  {
    hide KeyType, Fits;
  }

  lemma SectionsAreTables(document: Table)
    ensures ReadSections(document).Ok? && FromSections(TablesOf(document)).Ok? <==>
            && IsOrIsMissing(document, "immich")
            && IsOrIsMissing(document, "scan")
            && IsOrIsMissing(document, "apple_photos")
            && IsOrIsMissing(document, "picasa")
            && IsOrIsMissing(document, "upload")
            && IsOrIsMissing(document, "archive")
            && IsOrIsMissing(document, "migration")
  {
    hide ReadSections, FromSections, IsTable, GroupFits, TableOf, SectionFits, IsOrIsMissing;
    SectionsExactly(document);
    FromSectionsExactly(TablesOf(document));
    ImmichTableExactly(TableOf(document, "immich"));
    PartExactly(document, "immich", IMMICH_KEYS,
                GroupFits(TableOf(document, "immich"), ImmichType));
    ScanTableExactly(TableOf(document, "scan"));
    PartExactly(document, "scan", SCAN_KEYS,
                GroupFits(TableOf(document, "scan"), SourceType) && GroupFits(TableOf(document, "scan"), ScanType) && GroupFits(TableOf(document, "scan"), LimitType));
    AppleTableExactly(TableOf(document, "apple_photos"));
    PartExactly(document, "apple_photos", APPLE_KEYS,
                GroupFits(TableOf(document, "apple_photos"), AppleType));
    PicasaTableExactly(TableOf(document, "picasa"));
    PartExactly(document, "picasa", PICASA_KEYS,
                GroupFits(TableOf(document, "picasa"), PicasaType));
    UploadTableExactly(TableOf(document, "upload"));
    PartExactly(document, "upload", UPLOAD_KEYS,
                GroupFits(TableOf(document, "upload"), UploadType) && GroupFits(TableOf(document, "upload"), ExecutionType));
    ArchiveTableExactly(TableOf(document, "archive"));
    PartExactly(document, "archive", ARCHIVE_KEYS,
                GroupFits(TableOf(document, "archive"), ArchiveType));
    MigrationTableExactly(TableOf(document, "migration"));
    PartExactly(document, "migration", MIGRATION_KEYS,
                GroupFits(TableOf(document, "migration"), ServersType) && GroupFits(TableOf(document, "migration"), MigrationLimitType) && GroupFits(TableOf(document, "migration"), MigrationFileType));
  }

  /** A document loads exactly when it is a configuration of the one schema version. */
  lemma DocumentsLoadExactly(document: Table)
    ensures LoadDocument(document).Ok? <==> IsConfiguration(document)
  {
    SectionsExactly(document);
    SectionsAreTables(document);
    TopKeys(document);
    hide ReadSections, FromSections, IsTable, SectionFits, TablesOf;
  }

  lemma TopKeys(document: Table)
    ensures document.Keys <= TOP_KEYS <==> forall name :: name in document && name != "schema_version" ==> IsSection(name)
  {
    assert document.Keys <= TOP_KEYS <==> forall name :: name in document ==> name in TOP_KEYS;
  }

  /** A file is read exactly when it is regular, no link, of 1 byte to 1 MiB, and holds valid TOML in UTF-8. */
  lemma FilesAreReadExactly(readers: Readers, path: SourceOptions.Argument, document: Table)
    ensures ReadDocument(readers, path) == Ok(document) <==>
      && readers.file(path).Some?
      && var entry := readers.file(path).value;
      && entry.regular && !entry.symlink && 1 <= entry.len <= 1048576
      && entry.text.Some? && readers.toml(entry.text.value) == Some(document)
  {
  }

  // ---------------------------------------------------------------- the environment

  /** A variable that is set has a value of the kind. */
  predicate VariableFits(environment: Environment, name: string, kind: Kind) {
    name in environment ==> environment[name].Unicode? && ParseText(kind, environment[name].text).Some?
  }

  lemma StringSetExactly(environment: Environment, name: string, target: Option<string>, path: Option<SourceOptions.Argument>)
    ensures SetString(target, environment, name).Ok? <==> VariableFits(environment, name, TextKind)
    ensures SetPath(path, environment, name).Ok? <==> VariableFits(environment, name, PathKind)
  {
  }

  lemma NumberSetExactly(environment: Environment, name: string, max: nat, target: Option<nat>)
    ensures SetParsed(target, max, environment, name).Ok? <==> VariableFits(environment, name, NumberKind(max))
  {
    hide ParseU64;
  }

  lemma FlagSetExactly(environment: Environment, name: string, target: Option<bool>)
    ensures SetBool(target, environment, name).Ok? <==> VariableFits(environment, name, FlagKind)
  {
  }

  lemma OverlayImmichExactly(environment: Environment, layer: ImmichLayer)
    ensures OverlayImmich(environment, layer).Ok? <==>
            && VariableFits(environment, "IMMICH_RS_SERVER", TextKind)
            && VariableFits(environment, "IMMICH_RS_CA_CERTIFICATE", PathKind)
  {
    hide SetString, SetPath, SetParsed, SetBool, VariableFits;
    StringSetExactly(environment, "IMMICH_RS_SERVER", layer.server, None);
    StringSetExactly(environment, "IMMICH_RS_CA_CERTIFICATE", None, layer.caCertificate);
  }

  lemma OverlayScanExactly(environment: Environment, layer: ScanLayer)
    ensures OverlayScan(environment, layer).Ok? <==>
            && VariableFits(environment, "IMMICH_RS_BUFFER_BYTES", NumberKind(U64_MAX))
            && VariableFits(environment, "IMMICH_RS_MAX_ENTRIES", NumberKind(U64_MAX))
            && VariableFits(environment, "IMMICH_RS_MAX_DIRECTORY_ENTRIES", NumberKind(U64_MAX))
            && VariableFits(environment, "IMMICH_RS_MAX_PATH_BYTES", NumberKind(U64_MAX))
            && VariableFits(environment, "IMMICH_RS_CASE_SENSITIVE", FlagKind)
  {
    hide SetString, SetPath, SetParsed, SetBool, VariableFits;
    NumberSetExactly(environment, "IMMICH_RS_BUFFER_BYTES", U64_MAX, layer.bufferBytes);
    NumberSetExactly(environment, "IMMICH_RS_MAX_ENTRIES", U64_MAX, layer.maxEntries);
    NumberSetExactly(environment, "IMMICH_RS_MAX_DIRECTORY_ENTRIES", U64_MAX, layer.maxDirectoryEntries);
    NumberSetExactly(environment, "IMMICH_RS_MAX_PATH_BYTES", U64_MAX, layer.maxPathBytes);
    FlagSetExactly(environment, "IMMICH_RS_CASE_SENSITIVE", layer.caseSensitive);
  }

  lemma OverlayLimitsExactly(environment: Environment, layer: LimitLayer)
    ensures OverlayLimits(environment, layer).Ok? <==>
            && VariableFits(environment, "IMMICH_RS_MAX_ARCHIVES", NumberKind(U64_MAX))
            && VariableFits(environment, "IMMICH_RS_MAX_ARCHIVE_ENTRY_BYTES", NumberKind(U64_MAX))
            && VariableFits(environment, "IMMICH_RS_MAX_COMPRESSION_RATIO", NumberKind(U64_MAX))
            && VariableFits(environment, "IMMICH_RS_COMPRESSION_RATIO_GRACE_BYTES", NumberKind(U64_MAX))
  {
    hide SetString, SetPath, SetParsed, SetBool, VariableFits;
    NumberSetExactly(environment, "IMMICH_RS_MAX_ARCHIVES", U64_MAX, layer.maxArchives);
    NumberSetExactly(environment, "IMMICH_RS_MAX_ARCHIVE_ENTRY_BYTES", U64_MAX, layer.maxArchiveEntryBytes);
    NumberSetExactly(environment, "IMMICH_RS_MAX_COMPRESSION_RATIO", U64_MAX, layer.maxCompressionRatio);
    NumberSetExactly(environment, "IMMICH_RS_COMPRESSION_RATIO_GRACE_BYTES", U64_MAX, layer.compressionRatioGraceBytes);
  }

  lemma OverlayAlbumsExactly(environment: Environment, layer: AlbumLayer)
    ensures OverlayAlbums(environment, layer).Ok? <==>
            && VariableFits(environment, "IMMICH_RS_ALBUM_MODE", TextKind)
            && VariableFits(environment, "IMMICH_RS_ALBUM_PATH_JOINER", TextKind)
  {
    hide SetString, SetPath, SetParsed, SetBool, VariableFits;
    StringSetExactly(environment, "IMMICH_RS_ALBUM_MODE", layer.mode, None);
    StringSetExactly(environment, "IMMICH_RS_ALBUM_PATH_JOINER", layer.pathJoiner, None);
  }

  lemma OverlayPicasaExactly(environment: Environment, layer: PicasaLayer)
    ensures OverlayPicasa(environment, layer).Ok? <==>
            && VariableFits(environment, "IMMICH_RS_PICASA_ALBUMS", FlagKind)
            && VariableFits(environment, "IMMICH_RS_PICASA_FILENAME_DATE", FlagKind)
  {
    hide SetString, SetPath, SetParsed, SetBool, VariableFits;
    FlagSetExactly(environment, "IMMICH_RS_PICASA_ALBUMS", layer.albums);
    FlagSetExactly(environment, "IMMICH_RS_PICASA_FILENAME_DATE", layer.filenameDate);
  }

  lemma OverlayUploadExactly(environment: Environment, layer: UploadLayer)
    ensures OverlayUpload(environment, layer).Ok? <==>
            && VariableFits(environment, "IMMICH_RS_UPLOAD_PLAN", PathKind)
            && VariableFits(environment, "IMMICH_RS_UPLOAD_SOURCE", PathKind)
            && VariableFits(environment, "IMMICH_RS_UPLOAD_CHECKPOINT", PathKind)
            && VariableFits(environment, "IMMICH_RS_UPLOAD_DRY_RUN", FlagKind)
  {
    hide SetString, SetPath, SetParsed, SetBool, VariableFits;
    StringSetExactly(environment, "IMMICH_RS_UPLOAD_PLAN", None, layer.plan);
    StringSetExactly(environment, "IMMICH_RS_UPLOAD_SOURCE", None, layer.source);
    StringSetExactly(environment, "IMMICH_RS_UPLOAD_CHECKPOINT", None, layer.checkpoint);
    FlagSetExactly(environment, "IMMICH_RS_UPLOAD_DRY_RUN", layer.dryRun);
  }

  lemma OverlayExecutionExactly(environment: Environment, layer: ExecutionLayer)
    ensures OverlayExecution(environment, layer).Ok? <==>
            && VariableFits(environment, "IMMICH_RS_VERIFICATION_BUFFER_BYTES", NumberKind(U64_MAX))
            && VariableFits(environment, "IMMICH_RS_CONCURRENCY", NumberKind(U64_MAX))
            && VariableFits(environment, "IMMICH_RS_MAX_ATTEMPTS_PER_OPERATION", NumberKind(U32_MAX))
            && VariableFits(environment, "IMMICH_RS_MAX_RETRIES_PER_RUN", NumberKind(U32_MAX))
            && VariableFits(environment, "IMMICH_RS_RETRY_BASE_DELAY_MS", NumberKind(U64_MAX))
            && VariableFits(environment, "IMMICH_RS_RETRY_DELAY_CAP_MS", NumberKind(U64_MAX))
  {
    hide SetString, SetPath, SetParsed, SetBool, VariableFits;
    NumberSetExactly(environment, "IMMICH_RS_VERIFICATION_BUFFER_BYTES", U64_MAX, layer.verificationBufferBytes);
    NumberSetExactly(environment, "IMMICH_RS_CONCURRENCY", U64_MAX, layer.concurrency);
    NumberSetExactly(environment, "IMMICH_RS_MAX_ATTEMPTS_PER_OPERATION", U32_MAX, layer.maxAttempts);
    NumberSetExactly(environment, "IMMICH_RS_MAX_RETRIES_PER_RUN", U32_MAX, layer.maxRetries);
    NumberSetExactly(environment, "IMMICH_RS_RETRY_BASE_DELAY_MS", U64_MAX, layer.retryBaseDelay);
    NumberSetExactly(environment, "IMMICH_RS_RETRY_DELAY_CAP_MS", U64_MAX, layer.retryDelayCap);
  }

  lemma OverlayArchiveExactly(environment: Environment, layer: ArchiveLayer)
    ensures OverlayArchive(environment, layer).Ok? <==>
            && VariableFits(environment, "IMMICH_RS_ARCHIVE_SELECTION", TextKind)
            && VariableFits(environment, "IMMICH_RS_ARCHIVE_INCLUDE_TRASHED", FlagKind)
            && VariableFits(environment, "IMMICH_RS_ARCHIVE_PAGE_SIZE", NumberKind(U64_MAX))
            && VariableFits(environment, "IMMICH_RS_ARCHIVE_MAX_ASSETS", NumberKind(U64_MAX))
            && VariableFits(environment, "IMMICH_RS_ARCHIVE_MANIFEST", PathKind)
            && VariableFits(environment, "IMMICH_RS_ARCHIVE_DESTINATION", PathKind)
  {
    hide SetString, SetPath, SetParsed, SetBool, VariableFits;
    StringSetExactly(environment, "IMMICH_RS_ARCHIVE_SELECTION", layer.selection, None);
    FlagSetExactly(environment, "IMMICH_RS_ARCHIVE_INCLUDE_TRASHED", layer.includeTrashed);
    NumberSetExactly(environment, "IMMICH_RS_ARCHIVE_PAGE_SIZE", U64_MAX, layer.pageSize);
    NumberSetExactly(environment, "IMMICH_RS_ARCHIVE_MAX_ASSETS", U64_MAX, layer.maxAssets);
    StringSetExactly(environment, "IMMICH_RS_ARCHIVE_MANIFEST", None, layer.manifest);
    StringSetExactly(environment, "IMMICH_RS_ARCHIVE_DESTINATION", None, layer.destination);
  }

  lemma OverlayMigrationServersExactly(environment: Environment, layer: MigrationServers)
    ensures OverlayMigrationServers(environment, layer).Ok? <==>
            && VariableFits(environment, "IMMICH_RS_MIGRATION_SOURCE_SERVER", TextKind)
            && VariableFits(environment, "IMMICH_RS_MIGRATION_DESTINATION_SERVER", TextKind)
  {
    hide SetString, SetPath, SetParsed, SetBool, VariableFits;
    StringSetExactly(environment, "IMMICH_RS_MIGRATION_SOURCE_SERVER", layer.source, None);
    StringSetExactly(environment, "IMMICH_RS_MIGRATION_DESTINATION_SERVER", layer.destination, None);
  }

  lemma OverlayMigrationLimitsExactly(environment: Environment, layer: MigrationLimits)
    ensures OverlayMigrationLimits(environment, layer).Ok? <==>
            && VariableFits(environment, "IMMICH_RS_MIGRATION_PAGE_SIZE", NumberKind(U64_MAX))
            && VariableFits(environment, "IMMICH_RS_MIGRATION_MAX_ASSETS", NumberKind(U64_MAX))
            && VariableFits(environment, "IMMICH_RS_MIGRATION_MAX_ALBUMS", NumberKind(U64_MAX))
            && VariableFits(environment, "IMMICH_RS_MIGRATION_MAX_ALBUM_MEMBERSHIPS", NumberKind(U64_MAX))
            && VariableFits(environment, "IMMICH_RS_MIGRATION_MAX_ASSET_BYTES", NumberKind(U64_MAX))
            && VariableFits(environment, "IMMICH_RS_MIGRATION_MAX_TOTAL_BYTES", NumberKind(U64_MAX))
  {
    hide SetString, SetPath, SetParsed, SetBool, VariableFits;
    NumberSetExactly(environment, "IMMICH_RS_MIGRATION_PAGE_SIZE", U64_MAX, layer.pageSize);
    NumberSetExactly(environment, "IMMICH_RS_MIGRATION_MAX_ASSETS", U64_MAX, layer.maxAssets);
    NumberSetExactly(environment, "IMMICH_RS_MIGRATION_MAX_ALBUMS", U64_MAX, layer.maxAlbums);
    NumberSetExactly(environment, "IMMICH_RS_MIGRATION_MAX_ALBUM_MEMBERSHIPS", U64_MAX, layer.maxAlbumMemberships);
    NumberSetExactly(environment, "IMMICH_RS_MIGRATION_MAX_ASSET_BYTES", U64_MAX, layer.maxAssetBytes);
    NumberSetExactly(environment, "IMMICH_RS_MIGRATION_MAX_TOTAL_BYTES", U64_MAX, layer.maxTotalBytes);
  }

  lemma OverlayMigrationFilesExactly(environment: Environment, layer: MigrationFiles)
    ensures OverlayMigrationFiles(environment, layer).Ok? <==>
            && VariableFits(environment, "IMMICH_RS_MIGRATION_PLAN", PathKind)
            && VariableFits(environment, "IMMICH_RS_MIGRATION_CHECKPOINT", PathKind)
            && VariableFits(environment, "IMMICH_RS_MIGRATION_DRY_RUN", FlagKind)
  {
    hide SetString, SetPath, SetParsed, SetBool, VariableFits;
    StringSetExactly(environment, "IMMICH_RS_MIGRATION_PLAN", None, layer.plan);
    StringSetExactly(environment, "IMMICH_RS_MIGRATION_CHECKPOINT", None, layer.checkpoint);
    FlagSetExactly(environment, "IMMICH_RS_MIGRATION_DRY_RUN", layer.dryRun);
  }

  /** The variable of a setting fits its kind; an album mode is not read before it is used. */
  predicate SlotFits(environment: Environment, slot: Slot) {
    match VariableOf(slot)
    case None => true
    case Some(name) => VariableFits(environment, name, if slot == AlbumModeSlot then TextKind else KindOf(slot))
  }

  predicate OtherFits(environment: Environment, slot: OtherSlot) {
    VariableFits(environment, OtherVariable(slot), OtherKind(slot))
  }

  predicate UploadSourceFits(environment: Environment) {
    VariableFits(environment, "IMMICH_RS_UPLOAD_SOURCE", PathKind)
  }

  /** The list of inputs is Unicode and a JSON list of paths. */
  predicate InputsFit(json: string -> Option<seq<SourceOptions.Argument>>, environment: Environment) {
    "IMMICH_RS_INPUTS_JSON" in environment ==>
      environment["IMMICH_RS_INPUTS_JSON"].Unicode? && json(environment["IMMICH_RS_INPUTS_JSON"].text).Some?
  }

  lemma SlotIs(environment: Environment, slot: Slot, name: string)
    requires VariableOf(slot) == Some(name)
    ensures SlotFits(environment, slot) <==>
            VariableFits(environment, name, if slot == AlbumModeSlot then TextKind else KindOf(slot))
  {
  }

  lemma OtherIs(environment: Environment, slot: OtherSlot, name: string)
    requires OtherVariable(slot) == name
    ensures OtherFits(environment, slot) <==> VariableFits(environment, name, OtherKind(slot))
  {
  }

  lemma ImmichVariablesFit(environment: Environment, layer: ImmichLayer)
    ensures OverlayImmich(environment, layer).Ok? <==>
            && SlotFits(environment, ServerSlot) && SlotFits(environment, CaCertificate)
  {
    hide OverlayImmich, VariableFits;
    OverlayImmichExactly(environment, layer);
  }

  lemma ScanVariablesFit(environment: Environment, layer: ScanLayer)
    ensures OverlayScan(environment, layer).Ok? <==>
            && SlotFits(environment, BufferBytes) && SlotFits(environment, MaxEntries) && SlotFits(environment, MaxDirectoryEntries)
            && SlotFits(environment, MaxPathBytes) && SlotFits(environment, CaseSensitive)
  {
    hide OverlayScan, VariableFits;
    OverlayScanExactly(environment, layer);
  }

  lemma LimitVariablesFit(environment: Environment, layer: LimitLayer)
    ensures OverlayLimits(environment, layer).Ok? <==>
            && SlotFits(environment, MaxArchives) && SlotFits(environment, MaxArchiveEntryBytes) && SlotFits(environment, MaxCompressionRatio)
            && SlotFits(environment, CompressionRatioGraceBytes)
  {
    hide OverlayLimits, VariableFits, SlotFits;
    OverlayLimitsExactly(environment, layer);
    SlotIs(environment, MaxArchives, "IMMICH_RS_MAX_ARCHIVES");
    SlotIs(environment, MaxArchiveEntryBytes, "IMMICH_RS_MAX_ARCHIVE_ENTRY_BYTES");
    SlotIs(environment, MaxCompressionRatio, "IMMICH_RS_MAX_COMPRESSION_RATIO");
    SlotIs(environment, CompressionRatioGraceBytes, "IMMICH_RS_COMPRESSION_RATIO_GRACE_BYTES");
  }

  lemma AlbumVariablesFit(environment: Environment, layer: AlbumLayer)
    ensures OverlayAlbums(environment, layer).Ok? <==>
            && SlotFits(environment, AlbumModeSlot) && SlotFits(environment, AlbumPathJoiner)
  {
    hide OverlayAlbums, VariableFits;
    OverlayAlbumsExactly(environment, layer);
  }

  lemma PicasaVariablesFit(environment: Environment, layer: PicasaLayer)
    ensures OverlayPicasa(environment, layer).Ok? <==>
            && SlotFits(environment, PicasaAlbums) && SlotFits(environment, FilenameDate)
  {
    hide OverlayPicasa, VariableFits;
    OverlayPicasaExactly(environment, layer);
  }

  lemma UploadVariablesFit(environment: Environment, layer: UploadLayer)
    ensures OverlayUpload(environment, layer).Ok? <==>
            && SlotFits(environment, Plan) && SlotFits(environment, Checkpoint) && SlotFits(environment, DryRun) && UploadSourceFits(environment)
  {
    hide OverlayUpload, VariableFits;
    OverlayUploadExactly(environment, layer);
  }

  lemma ExecutionVariablesFit(environment: Environment, layer: ExecutionLayer)
    ensures OverlayExecution(environment, layer).Ok? <==>
            && SlotFits(environment, VerificationBufferBytes) && SlotFits(environment, Concurrency) && SlotFits(environment, MaxAttempts)
            && SlotFits(environment, MaxRetries) && SlotFits(environment, RetryBaseDelay) && SlotFits(environment, RetryDelayCap)
  {
    hide OverlayExecution, VariableFits, SlotFits;
    OverlayExecutionExactly(environment, layer);
    SlotIs(environment, VerificationBufferBytes, "IMMICH_RS_VERIFICATION_BUFFER_BYTES");
    SlotIs(environment, Concurrency, "IMMICH_RS_CONCURRENCY");
    SlotIs(environment, MaxAttempts, "IMMICH_RS_MAX_ATTEMPTS_PER_OPERATION");
    SlotIs(environment, MaxRetries, "IMMICH_RS_MAX_RETRIES_PER_RUN");
    SlotIs(environment, RetryBaseDelay, "IMMICH_RS_RETRY_BASE_DELAY_MS");
    SlotIs(environment, RetryDelayCap, "IMMICH_RS_RETRY_DELAY_CAP_MS");
  }

  lemma ArchiveVariablesFit(environment: Environment, layer: ArchiveLayer)
    ensures OverlayArchive(environment, layer).Ok? <==>
            && OtherFits(environment, ArchiveSelection) && OtherFits(environment, ArchiveIncludeTrashed) && OtherFits(environment, ArchivePageSize)
            && OtherFits(environment, ArchiveMaxAssets) && OtherFits(environment, ArchiveManifest) && OtherFits(environment, ArchiveDestination)
  {
    hide OverlayArchive, VariableFits;
    OverlayArchiveExactly(environment, layer);
  }

  lemma ServersVariablesFit(environment: Environment, layer: MigrationServers)
    ensures OverlayMigrationServers(environment, layer).Ok? <==>
            && OtherFits(environment, MigrationSourceServer) && OtherFits(environment, MigrationDestinationServer)
  {
    hide OverlayMigrationServers, VariableFits;
    OverlayMigrationServersExactly(environment, layer);
  }

  lemma MigrationLimitVariablesFit(environment: Environment, layer: MigrationLimits)
    ensures OverlayMigrationLimits(environment, layer).Ok? <==>
            && OtherFits(environment, MigrationPageSize) && OtherFits(environment, MigrationMaxAssets) && OtherFits(environment, MigrationMaxAlbums)
            && OtherFits(environment, MigrationMaxAlbumMemberships) && OtherFits(environment, MigrationMaxAssetBytes) && OtherFits(environment, MigrationMaxTotalBytes)
  {
    hide OverlayMigrationLimits, VariableFits, OtherFits;
    OverlayMigrationLimitsExactly(environment, layer);
    OtherIs(environment, MigrationPageSize, "IMMICH_RS_MIGRATION_PAGE_SIZE");
    OtherIs(environment, MigrationMaxAssets, "IMMICH_RS_MIGRATION_MAX_ASSETS");
    OtherIs(environment, MigrationMaxAlbums, "IMMICH_RS_MIGRATION_MAX_ALBUMS");
    OtherIs(environment, MigrationMaxAlbumMemberships, "IMMICH_RS_MIGRATION_MAX_ALBUM_MEMBERSHIPS");
    OtherIs(environment, MigrationMaxAssetBytes, "IMMICH_RS_MIGRATION_MAX_ASSET_BYTES");
    OtherIs(environment, MigrationMaxTotalBytes, "IMMICH_RS_MIGRATION_MAX_TOTAL_BYTES");
  }

  lemma MigrationFileVariablesFit(environment: Environment, layer: MigrationFiles)
    ensures OverlayMigrationFiles(environment, layer).Ok? <==>
            && OtherFits(environment, MigrationPlan) && OtherFits(environment, MigrationCheckpoint) && OtherFits(environment, MigrationDryRun)
  {
    hide OverlayMigrationFiles, VariableFits;
    OverlayMigrationFilesExactly(environment, layer);
  }

  lemma SourceVariablesFit(json: string -> Option<seq<SourceOptions.Argument>>, environment: Environment, layer: SourceLayer)
    ensures OverlaySource(json, environment, layer).Ok? <==>
            && OtherFits(environment, SourceLabel) && OtherFits(environment, SourcePath) && InputsFit(json, environment)
  {
    hide SetString, SetPath, VariableFits;
    StringSetExactly(environment, "IMMICH_RS_LABEL", layer.sourceLabel, None);
    StringSetExactly(environment, "IMMICH_RS_SOURCE", None, layer.source);
  }

  lemma MigrationVariablesFit(environment: Environment, layer: MigrationLayer)
    ensures OverlayMigration(environment, layer).Ok? <==>
            && OverlayMigrationServers(environment, layer.servers).Ok?
            && OverlayMigrationLimits(environment, layer.limits).Ok?
            && OverlayMigrationFiles(environment, layer.files).Ok?
  {
    hide OverlayMigrationServers, OverlayMigrationLimits, OverlayMigrationFiles;
  }

  lemma OverlayParts(json: string -> Option<seq<SourceOptions.Argument>>, environment: Environment, config: Effective)
    ensures Overlay(json, environment, config).Ok? <==>
            && OverlayImmich(environment, config.immich).Ok? && OverlaySource(json, environment, config.source).Ok?
            && OverlayScan(environment, config.scan).Ok? && OverlayLimits(environment, config.limits).Ok?
            && OverlayAlbums(environment, config.albums).Ok? && OverlayPicasa(environment, config.picasa).Ok?
            && OverlayUpload(environment, config.upload).Ok? && OverlayExecution(environment, config.execution).Ok?
            && OverlayArchive(environment, config.archive).Ok? && OverlayMigration(environment, config.migration).Ok?
  {
    hide OverlayImmich, OverlaySource, OverlayScan, OverlayLimits, OverlayAlbums, OverlayPicasa, OverlayUpload,
         OverlayExecution, OverlayArchive, OverlayMigration;
  }

  /** Options that have no variable. */
  const COMMAND_LINE_ONLY := {ProductionRead, ProductionWrite, PlanSha256, ExpectedOperations, BackupReference}

  lemma EverySlot(slot: Slot)
    ensures slot in COMMAND_LINE_ONLY || slot in {
      BufferBytes, MaxEntries, MaxDirectoryEntries, MaxPathBytes, CaseSensitive,
      MaxArchives, MaxArchiveEntryBytes, MaxCompressionRatio, CompressionRatioGraceBytes, AlbumModeSlot,
      AlbumPathJoiner, PicasaAlbums, FilenameDate, VerificationBufferBytes, Concurrency,
      MaxAttempts, MaxRetries, RetryBaseDelay, RetryDelayCap, Plan,
      Checkpoint, ServerSlot, CaCertificate, DryRun}
  {
  }

  lemma EveryOtherSlot(slot: OtherSlot)
    ensures slot in {
      SourceLabel, SourcePath, ArchiveSelection, ArchiveIncludeTrashed,
      ArchivePageSize, ArchiveMaxAssets, ArchiveManifest, ArchiveDestination,
      MigrationSourceServer, MigrationDestinationServer, MigrationPageSize, MigrationMaxAssets,
      MigrationMaxAlbums, MigrationMaxAlbumMemberships, MigrationMaxAssetBytes, MigrationMaxTotalBytes,
      MigrationPlan, MigrationCheckpoint, MigrationDryRun}
  {
  }

  lemma NoVariable(environment: Environment, slot: Slot)
    requires slot in COMMAND_LINE_ONLY
    ensures SlotFits(environment, slot)
  {
    hide VariableFits, KindOf;
    assert VariableOf(slot) == None;
  }

  /** Every variable that is set fits what it is for. */
  ghost predicate EnvironmentFits(json: string -> Option<seq<SourceOptions.Argument>>, environment: Environment) {
    && (forall slot :: SlotFits(environment, slot)) && (forall slot :: OtherFits(environment, slot))
    && UploadSourceFits(environment) && InputsFit(json, environment)
  }

  /** The environment is taken over exactly when every variable that is set fits its setting, whatever the
      layer below. */
  lemma EnvironmentsLoadExactly(json: string -> Option<seq<SourceOptions.Argument>>, environment: Environment,
                                config: Effective)
    ensures Overlay(json, environment, config).Ok? <==> EnvironmentFits(json, environment)
  {
    hide Overlay, OverlayImmich, OverlaySource, OverlayScan, OverlayLimits, OverlayAlbums, OverlayPicasa, OverlayUpload,
         OverlayExecution, OverlayArchive, OverlayMigration, OverlayMigrationServers, OverlayMigrationLimits,
         OverlayMigrationFiles, SlotFits, OtherFits, UploadSourceFits, InputsFit;
    OverlayParts(json, environment, config);
    ImmichVariablesFit(environment, config.immich);
    SourceVariablesFit(json, environment, config.source);
    ScanVariablesFit(environment, config.scan);
    LimitVariablesFit(environment, config.limits);
    AlbumVariablesFit(environment, config.albums);
    PicasaVariablesFit(environment, config.picasa);
    UploadVariablesFit(environment, config.upload);
    ExecutionVariablesFit(environment, config.execution);
    ArchiveVariablesFit(environment, config.archive);
    MigrationVariablesFit(environment, config.migration);
    ServersVariablesFit(environment, config.migration.servers);
    MigrationLimitVariablesFit(environment, config.migration.limits);
    MigrationFileVariablesFit(environment, config.migration.files);
    if Overlay(json, environment, config).Ok? {
      forall slot ensures SlotFits(environment, slot) {
        EverySlot(slot);
        if slot in COMMAND_LINE_ONLY {
          NoVariable(environment, slot);
        }
      }
      forall slot ensures OtherFits(environment, slot) {
        EveryOtherSlot(slot);
      }
    }
  }

  // ---------------------------------------------------------------- loading

  /** Every variable that begins with the prefix is one the program reads. */
  ghost predicate AllAreRead(environment: Environment) {
    forall name :: name in environment && "IMMICH_RS_" <= name ==>
      || (exists slot: Slot :: VariableOf(slot) == Some(name))
      || (exists slot: OtherSlot :: OtherVariable(slot) == name)
      || name in {"IMMICH_RS_INPUTS_JSON", "IMMICH_RS_CONFIG", "IMMICH_RS_UPLOAD_SOURCE"}
      || name in {"IMMICH_RS_API_KEY", "IMMICH_RS_API_KEY_FILE", "IMMICH_RS_SOURCE_API_KEY",
                  "IMMICH_RS_SOURCE_API_KEY_FILE", "IMMICH_RS_DESTINATION_API_KEY",
                  "IMMICH_RS_DESTINATION_API_KEY_FILE"}
  }

  lemma SingleNamesAreKnown(name: string)
    ensures name in SINGLE_NAMES || name in API_KEYS ==> name in KNOWN_NAMES
  {
  }

  lemma KnownNamesAreRead(name: string)
    ensures name in KNOWN_NAMES <==> IsRead(name)
  {
    if name in KNOWN_NAMES {
      EveryKnownNameIsRead(name);
    }
    SingleNamesAreKnown(name);
    hide KNOWN_NAMES, VariableOf, OtherVariable;
    if slot: Slot :| VariableOf(slot) == Some(name) {
      SettingsAreKnown(slot, SourceLabel);
    }
    if slot: OtherSlot :| OtherVariable(slot) == name {
      SettingsAreKnown(Plan, slot);
    }
  }

  lemma PrefixExactly(name: string)
    ensures HasPrefix(name) <==> "IMMICH_RS_" <= name
  {
  }

  lemma NamesExactly(environment: Environment)
    ensures ValidNames(environment) <==> AllAreRead(environment)
  {
    hide KNOWN_NAMES, VariableOf, OtherVariable, HasPrefix;
    forall name ensures (HasPrefix(name) <==> "IMMICH_RS_" <= name) && (name in KNOWN_NAMES <==> IsRead(name)) {
      PrefixExactly(name);
      KnownNamesAreRead(name);
    }
  }

  /** The arguments name a file once at most, and what is left of them. */
  ghost predicate Leaves(arguments: seq<SourceOptions.Argument>, path: Option<SourceOptions.Argument>,
                         rest: seq<SourceOptions.Argument>)
  {
    var option := SourceOptions.Unicode("--config");
    && option !in rest
    && match path
       case None => arguments == rest
       case Some(file) => exists at :: 0 <= at <= |rest| && arguments == rest[..at] + [option, file] + rest[at..]
  }

  lemma LeavesExactly(arguments: seq<SourceOptions.Argument>, path: Option<SourceOptions.Argument>,
                      rest: seq<SourceOptions.Argument>)
    ensures Extract(arguments, None) == Ok(Extracted(path, rest)) <==> Leaves(arguments, path, rest)
  {
    hide Extract;
    if Extract(arguments, None) == Ok(Extracted(path, rest)) {
      ExtractTakesOnePairOut(arguments);
      if path.Some? {
        var at: nat :| at <= |rest| && arguments == WithConfig(rest, at, path.value);
      }
    }
    if Leaves(arguments, path, rest) {
      if path.None? {
        WithoutConfig(rest, None);
      } else {
        var at :| 0 <= at <= |rest| && arguments == rest[..at] + [CONFIG, path.value] + rest[at..];
        ExtractInvertsInsertion(rest, at, path.value);
      }
    }
  }

  /** The file that is read: the one named on the command line, else the one the environment names. */
  function FileToRead(environment: Environment, path: Option<SourceOptions.Argument>): Option<SourceOptions.Argument> {
    if path.Some? then path
    else if "IMMICH_RS_CONFIG" in environment then Some(environment["IMMICH_RS_CONFIG"])
    else None
  }

  /** There is no file, or one that holds a configuration. */
  ghost predicate FileFits(readers: Readers, file: Option<SourceOptions.Argument>) {
    file.None? || exists document :: ReadDocument(readers, file.value) == Ok(document) && IsConfiguration(document)
  }

  lemma FileLayerExactly(readers: Readers, environment: Environment, path: Option<SourceOptions.Argument>)
    ensures FileLayer(readers, environment, path).Ok? <==>
            && ("IMMICH_RS_CONFIG" in environment ==> environment["IMMICH_RS_CONFIG"].Unicode?)
            && FileFits(readers, FileToRead(environment, path))
  {
    hide ReadDocument, LoadDocument, IsConfiguration;
    forall document ensures LoadDocument(document).Ok? <==> IsConfiguration(document) {
      DocumentsLoadExactly(document);
    }
  }

  /** Loading succeeds exactly when the arguments name at most one file, every prefixed variable is read by
      something and fits it, and the chosen file, if any, is a readable configuration. */
  lemma ConfigurationLoadsExactly(readers: Readers, environment: Environment, arguments: seq<SourceOptions.Argument>)
    ensures Load(readers, environment, arguments).Ok? <==>
      exists path, rest ::
        && Leaves(arguments, path, rest) && AllAreRead(environment)
        && ("IMMICH_RS_CONFIG" in environment ==> environment["IMMICH_RS_CONFIG"].Unicode?)
        && FileFits(readers, FileToRead(environment, path)) && EnvironmentFits(readers.json, environment)
  {
    hide Extract, Leaves, ValidNames, AllAreRead, FileLayer, Overlay, FileFits, FileToRead, EnvironmentFits;
    NamesExactly(environment);
    forall path, rest ensures Extract(arguments, None) == Ok(Extracted(path, rest)) <==> Leaves(arguments, path, rest) {
      LeavesExactly(arguments, path, rest);
    }
    forall path ensures FileLayer(readers, environment, path).Ok? <==>
        && ("IMMICH_RS_CONFIG" in environment ==> environment["IMMICH_RS_CONFIG"].Unicode?)
        && FileFits(readers, FileToRead(environment, path))
    {
      FileLayerExactly(readers, environment, path);
    }
    forall config ensures Overlay(readers.json, environment, config).Ok? <==> EnvironmentFits(readers.json, environment) {
      EnvironmentsLoadExactly(readers.json, environment, config);
    }
  }
}

/** The settings of `immich-rs apply` as a reader of its manual sees them: which option, which
    environment variable and which kind of value each one has. This is the reference the parser and
    the configuration layers are compared with. */
module Settings {
  import opened Remote
  import opened SourceOptions
  import opened Wrappers

  const U32_MAX := 0xFFFF_FFFF

  datatype Slot =
    | BufferBytes | MaxEntries | MaxDirectoryEntries | MaxPathBytes | CaseSensitive
    | MaxArchives | MaxArchiveEntryBytes | MaxCompressionRatio | CompressionRatioGraceBytes
    | AlbumModeSlot | AlbumPathJoiner
    | PicasaAlbums | FilenameDate
    | VerificationBufferBytes | Concurrency | MaxAttempts | MaxRetries | RetryBaseDelay | RetryDelayCap
    | Plan | Checkpoint | ServerSlot | CaCertificate | DryRun
    | ProductionRead | ProductionWrite | PlanSha256 | ExpectedOperations | BackupReference

  datatype Value = Number(number: nat) | Flag(flag: bool) | Text(text: string) | Path(path: Argument) | Mode(mode: AlbumMode)

  datatype Kind = NumberKind(max: nat) | FlagKind | TextKind | PathKind | ModeKind

  function KindOf(slot: Slot): Kind {
    match slot
    case MaxAttempts => NumberKind(U32_MAX)
    case MaxRetries => NumberKind(U32_MAX)
    case CaseSensitive => FlagKind
    case PicasaAlbums => FlagKind
    case FilenameDate => FlagKind
    case DryRun => FlagKind
    case ProductionRead => FlagKind
    case ProductionWrite => FlagKind
    case AlbumModeSlot => ModeKind
    case AlbumPathJoiner => TextKind
    case ServerSlot => TextKind
    case PlanSha256 => TextKind
    case BackupReference => TextKind
    case Plan => PathKind
    case Checkpoint => PathKind
    case CaCertificate => PathKind
    case _ => NumberKind(U64_MAX)
  }

  /** The value a text stands for, for a setting of a kind. */
  function ParseText(kind: Kind, text: string): Option<Value> {
    match kind
    case NumberKind(max) =>
      var number := ParseU64(text);
      if number.Some? && number.value <= max then Some(Number(number.value)) else None
    case FlagKind => if text == "true" then Some(Flag(true)) else if text == "false" then Some(Flag(false)) else None
    case TextKind => Some(Text(text))
    case PathKind => Some(Path(Unicode(text)))
    case ModeKind => if ParseAlbumMode(text).Ok? then Some(Mode(ParseAlbumMode(text).value)) else None
  }

  // ---------------------------------------------------------------- the command line

  const PRODUCTION_FLAGS := {"--authorize-production-read", "--authorize-production-write"}
  const PRODUCTION_VALUES := {"--confirm-plan-sha256", "--expected-operations", "--backup-reference"}
  const ALBUM_OPTIONS := {"--album-mode", "--album-path-joiner"}
  const EXECUTION := {
    "--verification-buffer-bytes", "--concurrency", "--max-attempts-per-operation", "--max-retries-per-run",
    "--retry-base-delay-ms", "--retry-delay-cap-ms"}
  const OWN_VALUES := {"--plan", "--source", "--input", "--checkpoint", "--server", "--ca-certificate"}
  const OWN_FLAGS := {"--dry-run", "--no-dry-run"}

  /** What an option sets, and for a flag to what. */
  datatype Meaning = ByValue(slot: Slot) | ByName(slot: Slot, flag: bool)

  function ScanMeaning(option: string): Meaning {
    if option == "--case-sensitive" then ByName(CaseSensitive, true)
    else if option == "--case-insensitive" then ByName(CaseSensitive, false)
    else if option == "--buffer-bytes" then ByValue(BufferBytes)
    else if option == "--max-entries" then ByValue(MaxEntries)
    else if option == "--max-directory-entries" then ByValue(MaxDirectoryEntries)
    else ByValue(MaxPathBytes)
  }

  function ProductionMeaning(option: string): Meaning {
    if option == "--authorize-production-read" then ByName(ProductionRead, true)
    else if option == "--authorize-production-write" then ByName(ProductionWrite, true)
    else if option == "--confirm-plan-sha256" then ByValue(PlanSha256)
    else if option == "--expected-operations" then ByValue(ExpectedOperations)
    else ByValue(BackupReference)
  }

  function LimitMeaning(option: string): Meaning {
    if option == "--max-archives" then ByValue(MaxArchives)
    else if option == "--max-archive-entry-bytes" then ByValue(MaxArchiveEntryBytes)
    else if option == "--max-compression-ratio" then ByValue(MaxCompressionRatio)
    else ByValue(CompressionRatioGraceBytes)
  }

  function AlbumMeaning(option: string): Meaning {
    if option == "--album-mode" then ByValue(AlbumModeSlot) else ByValue(AlbumPathJoiner)
  }

  function PicasaMeaning(option: string): Meaning {
    if option == "--picasa-albums" then ByName(PicasaAlbums, true)
    else if option == "--no-picasa-albums" then ByName(PicasaAlbums, false)
    else if option == "--filename-date" then ByName(FilenameDate, true)
    else ByName(FilenameDate, false)
  }

  function ExecutionMeaning(option: string): Meaning {
    if option == "--verification-buffer-bytes" then ByValue(VerificationBufferBytes)
    else if option == "--concurrency" then ByValue(Concurrency)
    else if option == "--max-attempts-per-operation" then ByValue(MaxAttempts)
    else if option == "--max-retries-per-run" then ByValue(MaxRetries)
    else if option == "--retry-base-delay-ms" then ByValue(RetryBaseDelay)
    else ByValue(RetryDelayCap)
  }

  function OwnMeaning(option: string): Option<Meaning> {
    if option == "--plan" then Some(ByValue(Plan))
    else if option == "--checkpoint" then Some(ByValue(Checkpoint))
    else if option == "--server" then Some(ByValue(ServerSlot))
    else if option == "--ca-certificate" then Some(ByValue(CaCertificate))
    else if option == "--dry-run" then Some(ByName(DryRun, true))
    else if option == "--no-dry-run" then Some(ByName(DryRun, false))
    else None
  }

  /** The setting an option is for; `--source` and `--input` are not settings. */
  function MeaningOf(option: string): Option<Meaning> {
    if option in SCAN_NUMBERS || option in SCAN_FLAGS then Some(ScanMeaning(option))
    else if option in PRODUCTION_FLAGS || option in PRODUCTION_VALUES then Some(ProductionMeaning(option))
    else if option in LIMITS then Some(LimitMeaning(option))
    else if option in ALBUM_OPTIONS then Some(AlbumMeaning(option))
    else if option in PICASA_FLAGS then Some(PicasaMeaning(option))
    else if option in EXECUTION then Some(ExecutionMeaning(option))
    else OwnMeaning(option)
  }

  function CliValue(meaning: Meaning, next: Option<Argument>): Option<Value> {
    if meaning.ByName? then Some(Flag(meaning.flag))
    else if next.None? then None
    else if KindOf(meaning.slot).PathKind? then Some(Path(next.value))
    else if next.value.Unicode? then ParseText(KindOf(meaning.slot), next.value.text)
    else None
  }

  /** How many arguments an option in option position takes up. */
  function OptionWidth(argument: Argument): (width: nat)
    ensures 1 <= width <= 2
  {
    if !argument.Unicode? then 1
    else
      match MeaningOf(argument.text)
      case None => if argument.text == "--source" || argument.text == "--input" then 2 else 1
      case Some(meaning) => if meaning.ByName? then 1 else 2
  }

  function GivenBy(meaning: Meaning, next: Option<Argument>, slot: Slot): Option<Value> {
    if meaning.slot == slot then CliValue(meaning, next) else None
  }

  /** The value one option gives to a setting. */
  function Given(argument: Argument, next: Option<Argument>, slot: Slot): Option<Value> {
    if !argument.Unicode? then None
    else
      match MeaningOf(argument.text)
      case None => None
      case Some(meaning) => GivenBy(meaning, next, slot)
  }

  function OrElse<T>(first: Option<T>, second: Option<T>): Option<T> {
    if first.Some? then first else second
  }

  /** The last value the arguments give to a setting. */
  function LastGiven(arguments: seq<Argument>, slot: Slot): Option<Value>
    decreases |arguments|
  {
    if |arguments| == 0 then None
    else
      var width := OptionWidth(arguments[0]);
      OrElse(if width <= |arguments| then LastGiven(arguments[width..], slot) else None,
             Given(arguments[0], NextOf(arguments), slot))
  }

  /** The values of an option that is not a setting, in order. */
  function ValuesOf(arguments: seq<Argument>, option: string): seq<Argument>
    decreases |arguments|
  {
    if |arguments| == 0 then []
    else
      var width := OptionWidth(arguments[0]);
      if width > |arguments| then []
      else
        (if arguments[0] == Unicode(option) && width == 2 then [arguments[1]] else [])
        + ValuesOf(arguments[width..], option)
  }

  // ---------------------------------------------------------------- the environment

  type Environment = map<string, Argument>

  function VariableOf(slot: Slot): Option<string> {
    match slot
    case BufferBytes => Some("IMMICH_RS_BUFFER_BYTES")
    case MaxEntries => Some("IMMICH_RS_MAX_ENTRIES")
    case MaxDirectoryEntries => Some("IMMICH_RS_MAX_DIRECTORY_ENTRIES")
    case MaxPathBytes => Some("IMMICH_RS_MAX_PATH_BYTES")
    case CaseSensitive => Some("IMMICH_RS_CASE_SENSITIVE")
    case MaxArchives => Some("IMMICH_RS_MAX_ARCHIVES")
    case MaxArchiveEntryBytes => Some("IMMICH_RS_MAX_ARCHIVE_ENTRY_BYTES")
    case MaxCompressionRatio => Some("IMMICH_RS_MAX_COMPRESSION_RATIO")
    case CompressionRatioGraceBytes => Some("IMMICH_RS_COMPRESSION_RATIO_GRACE_BYTES")
    case AlbumModeSlot => Some("IMMICH_RS_ALBUM_MODE")
    case AlbumPathJoiner => Some("IMMICH_RS_ALBUM_PATH_JOINER")
    case PicasaAlbums => Some("IMMICH_RS_PICASA_ALBUMS")
    case FilenameDate => Some("IMMICH_RS_PICASA_FILENAME_DATE")
    case VerificationBufferBytes => Some("IMMICH_RS_VERIFICATION_BUFFER_BYTES")
    case Concurrency => Some("IMMICH_RS_CONCURRENCY")
    case MaxAttempts => Some("IMMICH_RS_MAX_ATTEMPTS_PER_OPERATION")
    case MaxRetries => Some("IMMICH_RS_MAX_RETRIES_PER_RUN")
    case RetryBaseDelay => Some("IMMICH_RS_RETRY_BASE_DELAY_MS")
    case RetryDelayCap => Some("IMMICH_RS_RETRY_DELAY_CAP_MS")
    case Plan => Some("IMMICH_RS_UPLOAD_PLAN")
    case Checkpoint => Some("IMMICH_RS_UPLOAD_CHECKPOINT")
    case ServerSlot => Some("IMMICH_RS_SERVER")
    case CaCertificate => Some("IMMICH_RS_CA_CERTIFICATE")
    case DryRun => Some("IMMICH_RS_UPLOAD_DRY_RUN")
    case _ => None
  }

  /** The value a variable gives to a setting of a kind. */
  function VariableValue(environment: Environment, name: string, kind: Kind): Option<Value> {
    if name !in environment || !environment[name].Unicode? then None else ParseText(kind, environment[name].text)
  }

  function EnvironmentValue(environment: Environment, slot: Slot): Option<Value> {
    match VariableOf(slot)
    case None => None
    case Some(name) => VariableValue(environment, name, KindOf(slot))
  }

  predicate IsSet(environment: Environment, slot: Slot) {
    VariableOf(slot).Some? && VariableOf(slot).value in environment
  }
}

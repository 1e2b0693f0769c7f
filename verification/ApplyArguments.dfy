/** The options of `immich-rs apply`: crates/immich-cli/src/apply_args.rs, over the default layers of
    args.rs. The defaults themselves belong to other crates and are a parameter. */
module ApplyArguments {
  import opened Configuration
  import opened Remote
  import opened Sequences
  import opened Settings
  import opened SourceOptions
  import opened Wrappers

  datatype ExecutionConfig = ExecutionConfig(
    verificationBufferBytes: nat,
    concurrency: nat,
    maxAttempts: nat,
    maxRetries: nat,
    retryBaseDelay: nat,
    retryDelayCap: nat)

  datatype UploadConfig = UploadConfig(scan: ScanConfig, execution: ExecutionConfig)

  datatype TakeoutConfig = TakeoutConfig(scan: ScanConfig, limits: ArchiveLimits)

  datatype AppleConfig = AppleConfig(scan: ScanConfig, limits: ArchiveLimits, albums: AlbumConfig)

  datatype PicasaConfig = PicasaConfig(scan: ScanConfig, limits: ArchiveLimits, albums: AlbumConfig, flags: PicasaFlags)

  datatype ProductionOptions = ProductionOptions(
    read: bool,
    write: bool,
    planSha256: Option<string>,
    expectedOperations: Option<nat>,
    backupReference: Option<string>)

  /** The options `parse_upload` handles itself. */
  datatype OwnOptions = OwnOptions(
    plan: Option<Argument>,
    cliSource: Option<Argument>,
    cliInputs: seq<Argument>,
    checkpoint: Option<Argument>,
    server: Option<string>,
    serverFromCli: bool,
    caCertificate: Option<Argument>,
    caFromCli: bool,
    dryRun: bool)

  /** The local variables of `parse_upload`. */
  datatype State = State(
    upload: UploadConfig,
    takeout: TakeoutConfig,
    apple: AppleConfig,
    picasa: PicasaConfig,
    production: ProductionOptions,
    own: OwnOptions)

  // ---------------------------------------------------------------- the handlers

  /** What a handler that recognizes an option leaves, and how many arguments it takes up. */
  datatype Handled<C> = Handled(config: C, width: nat)

  function NumberUpTo(next: Option<Argument>, max: nat): Result<nat, Usage> {
    var number :- NumberValue(next);
    if number <= max then Ok(number) else Err(Usage("a positive integer is required"))
  }

  /** `common_scan_option`. */
  function ScanOption(option: string, next: Option<Argument>, scan: ScanConfig): Result<Option<Handled<ScanConfig>>, Usage> {
    if option in SCAN_NUMBERS then
      var number :- NumberValue(next);
      Ok(Some(Handled(SetScanNumber(scan, option, number), 2)))
    else if option in SCAN_FLAGS then Ok(Some(Handled(scan.(caseSensitive := option == "--case-sensitive"), 1)))
    else Ok(None)
  }

  /** `production_option`. */
  function ProductionOption(option: string, next: Option<Argument>, production: ProductionOptions)
    : Result<Option<Handled<ProductionOptions>>, Usage>
  {
    if option == "--authorize-production-read" then Ok(Some(Handled(production.(read := true), 1)))
    else if option == "--authorize-production-write" then Ok(Some(Handled(production.(write := true), 1)))
    else if option == "--confirm-plan-sha256" then
      var text :- StringValue(next);
      Ok(Some(Handled(production.(planSha256 := Some(text)), 2)))
    else if option == "--expected-operations" then
      var number :- NumberValue(next);
      Ok(Some(Handled(production.(expectedOperations := Some(number)), 2)))
    else if option == "--backup-reference" then
      var text :- StringValue(next);
      Ok(Some(Handled(production.(backupReference := Some(text)), 2)))
    else Ok(None)
  }

  /** `takeout_option`. */
  function TakeoutOption(option: string, next: Option<Argument>, limits: ArchiveLimits)
    : Result<Option<Handled<ArchiveLimits>>, Usage>
  {
    if option in LIMITS then
      var number :- NumberValue(next);
      Ok(Some(Handled(SetLimit(limits, option, number), 2)))
    else Ok(None)
  }

  /** `apple_option`. */
  function AppleOption(option: string, next: Option<Argument>, albums: AlbumConfig)
    : Result<Option<Handled<AlbumConfig>>, Usage>
  {
    if option == "--album-mode" then
      var mode :- ModeValue(next);
      Ok(Some(Handled(albums.(mode := mode), 2)))
    else if option == "--album-path-joiner" then
      var joiner :- StringValue(next);
      Ok(Some(Handled(albums.(pathJoiner := joiner), 2)))
    else Ok(None)
  }

  /** `picasa_option`. */
  function PicasaOption(option: string, flags: PicasaFlags): Option<Handled<PicasaFlags>> {
    if option in PICASA_FLAGS then Some(Handled(SetPicasaFlag(flags, option), 1)) else None
  }

  /** `execution_option`. */
  function ExecutionOption(option: string, next: Option<Argument>, config: ExecutionConfig)
    : Result<Option<Handled<ExecutionConfig>>, Usage>
  {
    if option == "--verification-buffer-bytes" then
      var number :- NumberValue(next);
      Ok(Some(Handled(config.(verificationBufferBytes := number), 2)))
    else if option == "--concurrency" then
      var number :- NumberValue(next);
      Ok(Some(Handled(config.(concurrency := number), 2)))
    else if option == "--max-attempts-per-operation" then
      var number :- NumberUpTo(next, U32_MAX);
      Ok(Some(Handled(config.(maxAttempts := number), 2)))
    else if option == "--max-retries-per-run" then
      var number :- NumberUpTo(next, U32_MAX);
      Ok(Some(Handled(config.(maxRetries := number), 2)))
    else if option == "--retry-base-delay-ms" then
      var number :- NumberValue(next);
      Ok(Some(Handled(config.(retryBaseDelay := number), 2)))
    else if option == "--retry-delay-cap-ms" then
      var number :- NumberValue(next);
      Ok(Some(Handled(config.(retryDelayCap := number), 2)))
    else Ok(None)
  }

  /** The options `parse_upload` handles itself (lines 70-107). */
  function OwnOption(option: string, next: Option<Argument>, s: OwnOptions): Result<Handled<OwnOptions>, Usage> {
    if option == "--plan" then
      var path :- PathValue(next);
      Ok(Handled(s.(plan := Some(path)), 2))
    else if option == "--source" then
      if s.cliSource.Some? then Err(Usage("--source may be supplied only once"))
      else
        var path :- PathValue(next);
        Ok(Handled(s.(cliSource := Some(path)), 2))
    else if option == "--input" then
      var path :- PathValue(next);
      Ok(Handled(s.(cliInputs := s.cliInputs + [path]), 2))
    else if option == "--checkpoint" then
      var path :- PathValue(next);
      Ok(Handled(s.(checkpoint := Some(path)), 2))
    else if option == "--server" then
      var server :- StringValue(next);
      Ok(Handled(s.(server := Some(server), serverFromCli := true), 2))
    else if option == "--ca-certificate" then
      var path :- PathValue(next);
      Ok(Handled(s.(caCertificate := Some(path), caFromCli := true), 2))
    else if option == "--dry-run" then Ok(Handled(s.(dryRun := true), 1))
    else if option == "--no-dry-run" then Ok(Handled(s.(dryRun := false), 1))
    else Err(Usage("unsupported apply option"))
  }

  /** One round of the loop: the handlers in their order, then the parser's own options. */
  function Step(argument: Argument, next: Option<Argument>, s: State): Result<Handled<State>, Usage> {
    if !argument.Unicode? then Err(Usage("unsupported apply option"))
    else
      var option := argument.text;
      var scan :- ScanOption(option, next, s.upload.scan);
      if scan.Some? then Ok(Handled(s.(upload := s.upload.(scan := scan.value.config)), scan.value.width))
      else
        var production :- ProductionOption(option, next, s.production);
        if production.Some? then Ok(Handled(s.(production := production.value.config), production.value.width))
        else
          var limits :- TakeoutOption(option, next, s.takeout.limits);
          if limits.Some? then Ok(Handled(s.(takeout := s.takeout.(limits := limits.value.config)), limits.value.width))
          else Rest(option, next, s)
  }

  /** The handlers after `takeout_option`. */
  function Rest(option: string, next: Option<Argument>, s: State): Result<Handled<State>, Usage> {
    var albums :- AppleOption(option, next, s.apple.albums);
    if albums.Some? then Ok(Handled(s.(apple := s.apple.(albums := albums.value.config)), albums.value.width))
    else
      var flags := PicasaOption(option, s.picasa.flags);
      if flags.Some? then Ok(Handled(s.(picasa := s.picasa.(flags := flags.value.config)), flags.value.width))
      else
        var execution :- ExecutionOption(option, next, s.upload.execution);
        if execution.Some? then
          Ok(Handled(s.(upload := s.upload.(execution := execution.value.config)), execution.value.width))
        else
          var own :- OwnOption(option, next, s.own);
          Ok(Handled(s.(own := own.config), own.width))
  }

  /** The loop of `parse_upload`. */
  function Fold(arguments: seq<Argument>, s: State): Result<State, Usage>
    decreases |arguments|
  {
    if |arguments| == 0 then Ok(s)
    else
      var handled :- Step(arguments[0], NextOf(arguments), s);
      if 1 <= handled.width <= |arguments| then Fold(arguments[handled.width..], handled.config) else Ok(handled.config)
  }

  // ---------------------------------------------------------------- the handlers are disjoint

  /** The handlers that take an option, in the order they are tried; the parser's own options are the last. */
  function Takers(option: string, next: Option<Argument>, s: State): set<nat> {
    (if ScanOption(option, next, s.upload.scan) != Ok(None) then {0} else {})
    + (if ProductionOption(option, next, s.production) != Ok(None) then {1} else {})
    + (if TakeoutOption(option, next, s.takeout.limits) != Ok(None) then {2} else {})
    + (if AppleOption(option, next, s.apple.albums) != Ok(None) then {3} else {})
    + (if PicasaOption(option, s.picasa.flags) != None then {4} else {})
    + (if ExecutionOption(option, next, s.upload.execution) != Ok(None) then {5} else {})
    + (if option in OWN_VALUES || option in OWN_FLAGS then {6} else {})
  }

  predicate InScan(option: string) {
    option in SCAN_NUMBERS || option in SCAN_FLAGS
  }

  predicate InProduction(option: string) {
    option in PRODUCTION_FLAGS || option in PRODUCTION_VALUES
  }

  predicate InExecution(option: string) {
    option in EXECUTION
  }

  predicate InOwn(option: string) {
    option in OWN_VALUES || option in OWN_FLAGS
  }

  lemma ScanTakes(option: string, next: Option<Argument>, scan: ScanConfig)
    ensures ScanOption(option, next, scan) != Ok(None) <==> InScan(option)
  {
    hide NumberValue, SetScanNumber;
  }

  lemma ProductionTakes(option: string, next: Option<Argument>, production: ProductionOptions)
    ensures ProductionOption(option, next, production) != Ok(None) <==> InProduction(option)
  {
    hide NumberValue, StringValue;
  }

  lemma TakeoutTakes(option: string, next: Option<Argument>, limits: ArchiveLimits)
    ensures TakeoutOption(option, next, limits) != Ok(None) <==> option in LIMITS
  {
    hide NumberValue, SetLimit;
  }

  lemma AppleTakes(option: string, next: Option<Argument>, albums: AlbumConfig)
    ensures AppleOption(option, next, albums) != Ok(None) <==> option in ALBUM_OPTIONS
  {
    hide ModeValue, StringValue;
  }

  lemma ExecutionTakes(option: string, next: Option<Argument>, config: ExecutionConfig)
    ensures ExecutionOption(option, next, config) != Ok(None) <==> option in EXECUTION
  {
    hide NumberValue, NumberUpTo;
  }

  lemma ScanOnly(option: string)
    requires InScan(option)
    ensures !InProduction(option) && option !in LIMITS && option !in ALBUM_OPTIONS && option !in PICASA_FLAGS
    ensures option !in EXECUTION && !InOwn(option)
  {
  }

  lemma ProductionOnly(option: string)
    requires InProduction(option)
    ensures option !in LIMITS && option !in ALBUM_OPTIONS && option !in PICASA_FLAGS && option !in EXECUTION && !InOwn(option)
  {
  }

  lemma LimitsOnly(option: string)
    requires option in LIMITS
    ensures option !in ALBUM_OPTIONS && option !in PICASA_FLAGS && option !in EXECUTION && !InOwn(option)
  {
  }

  lemma AlbumsOnly(option: string)
    requires option in ALBUM_OPTIONS
    ensures option !in PICASA_FLAGS && option !in EXECUTION && !InOwn(option)
  {
  }

  lemma PicasaOnly(option: string)
    requires option in PICASA_FLAGS
    ensures option !in EXECUTION && !InOwn(option)
  {
  }

  lemma ExecutionOnly(option: string)
    requires option in EXECUTION
    ensures !InOwn(option)
  {
  }

  /** No option is taken by two handlers, so their order does not matter. */
  lemma HandlersAreDisjoint(option: string, next: Option<Argument>, s: State)
    ensures forall j, k :: j in Takers(option, next, s) && k in Takers(option, next, s) ==> j == k
  {
    ScanTakes(option, next, s.upload.scan);
    ProductionTakes(option, next, s.production);
    TakeoutTakes(option, next, s.takeout.limits);
    AppleTakes(option, next, s.apple.albums);
    ExecutionTakes(option, next, s.upload.execution);
    hide ScanOption, ProductionOption, TakeoutOption, AppleOption, ExecutionOption, SetPicasaFlag;
    if InScan(option) {
      ScanOnly(option);
    } else if InProduction(option) {
      ProductionOnly(option);
    } else if option in LIMITS {
      LimitsOnly(option);
    } else if option in ALBUM_OPTIONS {
      AlbumsOnly(option);
    } else if option in PICASA_FLAGS {
      PicasaOnly(option);
    } else if option in EXECUTION {
      ExecutionOnly(option);
    }
  }

  // ---------------------------------------------------------------- reading a setting

  function ReadScan(scan: ScanConfig, slot: Slot): Option<Value> {
    match slot
    case BufferBytes => Some(Number(scan.bufferBytes))
    case MaxEntries => Some(Number(scan.maxEntries))
    case MaxDirectoryEntries => Some(Number(scan.maxDirectoryEntries))
    case MaxPathBytes => Some(Number(scan.maxPathBytes))
    case CaseSensitive => Some(Flag(scan.caseSensitive))
    case _ => None
  }

  function ReadLimits(limits: ArchiveLimits, slot: Slot): Option<Value> {
    match slot
    case MaxArchives => Some(Number(limits.maxArchives))
    case MaxArchiveEntryBytes => Some(Number(limits.maxArchiveEntryBytes))
    case MaxCompressionRatio => Some(Number(limits.maxCompressionRatio))
    case CompressionRatioGraceBytes => Some(Number(limits.compressionRatioGraceBytes))
    case _ => None
  }

  function ReadAlbums(albums: AlbumConfig, slot: Slot): Option<Value> {
    match slot
    case AlbumModeSlot => Some(Mode(albums.mode))
    case AlbumPathJoiner => Some(Text(albums.pathJoiner))
    case _ => None
  }

  function ReadFlags(flags: PicasaFlags, slot: Slot): Option<Value> {
    match slot
    case PicasaAlbums => Some(Flag(flags.picasaAlbums))
    case FilenameDate => Some(Flag(flags.filenameDate))
    case _ => None
  }

  function ReadExecution(config: ExecutionConfig, slot: Slot): Option<Value> {
    match slot
    case VerificationBufferBytes => Some(Number(config.verificationBufferBytes))
    case Concurrency => Some(Number(config.concurrency))
    case MaxAttempts => Some(Number(config.maxAttempts))
    case MaxRetries => Some(Number(config.maxRetries))
    case RetryBaseDelay => Some(Number(config.retryBaseDelay))
    case RetryDelayCap => Some(Number(config.retryDelayCap))
    case _ => None
  }

  function ReadProduction(production: ProductionOptions, slot: Slot): Option<Value> {
    match slot
    case ProductionRead => if production.read then Some(Flag(true)) else None
    case ProductionWrite => if production.write then Some(Flag(true)) else None
    case PlanSha256 => AsText(production.planSha256)
    case ExpectedOperations => AsNumber(production.expectedOperations)
    case BackupReference => AsText(production.backupReference)
    case _ => None
  }

  function ReadOwn(own: OwnOptions, slot: Slot): Option<Value> {
    match slot
    case Plan => AsPath(own.plan)
    case Checkpoint => AsPath(own.checkpoint)
    case ServerSlot => AsText(own.server)
    case CaCertificate => AsPath(own.caCertificate)
    case DryRun => Some(Flag(own.dryRun))
    case _ => None
  }

  datatype Section = ScanSection | LimitSection | AlbumSection | PicasaSection | ExecutionSection | ProductionSection | OwnSection

  function SectionOf(slot: Slot): Section {
    match slot
    case BufferBytes => ScanSection
    case MaxEntries => ScanSection
    case MaxDirectoryEntries => ScanSection
    case MaxPathBytes => ScanSection
    case CaseSensitive => ScanSection
    case MaxArchives => LimitSection
    case MaxArchiveEntryBytes => LimitSection
    case MaxCompressionRatio => LimitSection
    case CompressionRatioGraceBytes => LimitSection
    case AlbumModeSlot => AlbumSection
    case AlbumPathJoiner => AlbumSection
    case PicasaAlbums => PicasaSection
    case FilenameDate => PicasaSection
    case VerificationBufferBytes => ExecutionSection
    case Concurrency => ExecutionSection
    case MaxAttempts => ExecutionSection
    case MaxRetries => ExecutionSection
    case RetryBaseDelay => ExecutionSection
    case RetryDelayCap => ExecutionSection
    case ProductionRead => ProductionSection
    case ProductionWrite => ProductionSection
    case PlanSha256 => ProductionSection
    case ExpectedOperations => ProductionSection
    case BackupReference => ProductionSection
    case _ => OwnSection
  }

  /** The value of a setting while parsing. */
  function Read(s: State, slot: Slot): Option<Value> {
    match SectionOf(slot)
    case ScanSection => ReadScan(s.upload.scan, slot)
    case LimitSection => ReadLimits(s.takeout.limits, slot)
    case AlbumSection => ReadAlbums(s.apple.albums, slot)
    case PicasaSection => ReadFlags(s.picasa.flags, slot)
    case ExecutionSection => ReadExecution(s.upload.execution, slot)
    case ProductionSection => ReadProduction(s.production, slot)
    case OwnSection => ReadOwn(s.own, slot)
  }

  // ---------------------------------------------------------------- one option sets one setting

  predicate Takes(meaning: Meaning, next: Option<Argument>, width: nat) {
    width == (if meaning.ByName? then 1 else 2) && (width == 2 ==> next.Some?)
  }

  lemma NumberGiven(slot: Slot, next: Option<Argument>, max: nat)
    requires KindOf(slot) == NumberKind(max) && NumberUpTo(next, max).Ok?
    ensures next.Some? && CliValue(ByValue(slot), next) == Some(Number(NumberUpTo(next, max).value))
  {
    hide ParseU64;
  }

  lemma AnyNumberGiven(slot: Slot, next: Option<Argument>)
    requires KindOf(slot) == NumberKind(U64_MAX) && NumberValue(next).Ok?
    ensures next.Some? && CliValue(ByValue(slot), next) == Some(Number(NumberValue(next).value))
  {
    NumberIsU64(next);
    NumberGiven(slot, next, U64_MAX);
  }

  lemma NumberIsU64(next: Option<Argument>)
    requires NumberValue(next).Ok?
    ensures NumberValue(next).value <= U64_MAX && NumberUpTo(next, U64_MAX) == NumberValue(next)
  {
    hide AllDigits, DecimalValue;
  }

  lemma TextGiven(slot: Slot, next: Option<Argument>)
    requires KindOf(slot).TextKind? && StringValue(next).Ok?
    ensures next.Some? && CliValue(ByValue(slot), next) == Some(Text(StringValue(next).value))
  {
  }

  lemma PathGiven(slot: Slot, next: Option<Argument>)
    requires KindOf(slot).PathKind? && PathValue(next).Ok?
    ensures next.Some? && CliValue(ByValue(slot), next) == Some(Path(PathValue(next).value))
  {
  }

  lemma ModeGiven(next: Option<Argument>)
    requires ModeValue(next).Ok?
    ensures next.Some? && CliValue(ByValue(AlbumModeSlot), next) == Some(Mode(ModeValue(next).value))
  {
  }

  lemma ScanSets(option: string, next: Option<Argument>, scan: ScanConfig, h: Handled<ScanConfig>, slot: Slot)
    requires ScanOption(option, next, scan) == Ok(Some(h))
    ensures InScan(option) && Takes(ScanMeaning(option), next, h.width)
    ensures SectionOf(ScanMeaning(option).slot).ScanSection?
    ensures SectionOf(slot).ScanSection? ==>
      ReadScan(h.config, slot) == OrElse(GivenBy(ScanMeaning(option), next, slot), ReadScan(scan, slot))
  {
    hide NumberValue;
    if option in SCAN_NUMBERS {
      NumberKinds(option);
      AnyNumberGiven(ScanMeaning(option).slot, next);
      hide CliValue;
    }
  }

  lemma NumberKinds(option: string)
    requires option in SCAN_NUMBERS
    ensures ScanMeaning(option).ByValue? && KindOf(ScanMeaning(option).slot) == NumberKind(U64_MAX)
  {
  }

  lemma LimitsSet(option: string, next: Option<Argument>, limits: ArchiveLimits, h: Handled<ArchiveLimits>, slot: Slot)
    requires TakeoutOption(option, next, limits) == Ok(Some(h))
    ensures option in LIMITS && Takes(LimitMeaning(option), next, h.width)
    ensures SectionOf(LimitMeaning(option).slot).LimitSection?
    ensures SectionOf(slot).LimitSection? ==>
      ReadLimits(h.config, slot) == OrElse(GivenBy(LimitMeaning(option), next, slot), ReadLimits(limits, slot))
  {
    hide NumberValue;
    AnyNumberGiven(LimitMeaning(option).slot, next);
    hide CliValue;
  }

  lemma AlbumsSet(option: string, next: Option<Argument>, albums: AlbumConfig, h: Handled<AlbumConfig>, slot: Slot)
    requires AppleOption(option, next, albums) == Ok(Some(h))
    ensures option in ALBUM_OPTIONS && Takes(AlbumMeaning(option), next, h.width)
    ensures SectionOf(AlbumMeaning(option).slot).AlbumSection?
    ensures SectionOf(slot).AlbumSection? ==>
      ReadAlbums(h.config, slot) == OrElse(GivenBy(AlbumMeaning(option), next, slot), ReadAlbums(albums, slot))
  {
    hide ModeValue, StringValue;
    if option == "--album-mode" {
      ModeGiven(next);
    } else {
      TextGiven(AlbumPathJoiner, next);
    }
    hide CliValue;
  }

  lemma FlagsSet(option: string, next: Option<Argument>, flags: PicasaFlags, h: Handled<PicasaFlags>, slot: Slot)
    requires PicasaOption(option, flags) == Some(h)
    ensures option in PICASA_FLAGS && Takes(PicasaMeaning(option), next, h.width)
    ensures SectionOf(PicasaMeaning(option).slot).PicasaSection?
    ensures SectionOf(slot).PicasaSection? ==>
      ReadFlags(h.config, slot) == OrElse(GivenBy(PicasaMeaning(option), next, slot), ReadFlags(flags, slot))
  {
  }

  lemma ExecutionSets(option: string, next: Option<Argument>, config: ExecutionConfig, h: Handled<ExecutionConfig>, slot: Slot)
    requires ExecutionOption(option, next, config) == Ok(Some(h))
    ensures InExecution(option) && Takes(ExecutionMeaning(option), next, h.width)
    ensures SectionOf(ExecutionMeaning(option).slot).ExecutionSection?
    ensures SectionOf(slot).ExecutionSection? ==>
      ReadExecution(h.config, slot) == OrElse(GivenBy(ExecutionMeaning(option), next, slot), ReadExecution(config, slot))
  {
    hide NumberValue, NumberUpTo;
    var target := ExecutionMeaning(option).slot;
    if target == MaxAttempts || target == MaxRetries {
      NumberGiven(target, next, U32_MAX);
    } else {
      AnyNumberGiven(target, next);
    }
    hide CliValue;
  }

  lemma ProductionSets(option: string, next: Option<Argument>, production: ProductionOptions,
                       h: Handled<ProductionOptions>, slot: Slot)
    requires ProductionOption(option, next, production) == Ok(Some(h))
    ensures InProduction(option) && Takes(ProductionMeaning(option), next, h.width)
    ensures SectionOf(ProductionMeaning(option).slot).ProductionSection?
    ensures SectionOf(slot).ProductionSection? ==>
      ReadProduction(h.config, slot)
      == OrElse(GivenBy(ProductionMeaning(option), next, slot), ReadProduction(production, slot))
  {
    hide NumberValue, StringValue;
    var meaning := ProductionMeaning(option);
    if meaning.ByValue? {
      if meaning.slot == ExpectedOperations {
        AnyNumberGiven(meaning.slot, next);
      } else {
        TextGiven(meaning.slot, next);
      }
      hide CliValue;
    }
  }

  lemma OwnPathSets(option: string, next: Option<Argument>, own: OwnOptions, h: Handled<OwnOptions>, slot: Slot)
    requires OwnOption(option, next, own) == Ok(h) && option in {"--plan", "--checkpoint", "--ca-certificate"}
    ensures OwnMeaning(option).Some? && Takes(OwnMeaning(option).value, next, h.width)
    ensures SectionOf(OwnMeaning(option).value.slot).OwnSection?
    ensures SectionOf(slot).OwnSection? ==>
      ReadOwn(h.config, slot) == OrElse(GivenBy(OwnMeaning(option).value, next, slot), ReadOwn(own, slot))
  {
    hide StringValue, PathValue;
    PathGiven(OwnMeaning(option).value.slot, next);
    hide CliValue, KindOf;
  }

  lemma OwnServerSets(next: Option<Argument>, own: OwnOptions, h: Handled<OwnOptions>, slot: Slot)
    requires OwnOption("--server", next, own) == Ok(h)
    ensures OwnMeaning("--server") == Some(ByValue(ServerSlot)) && Takes(ByValue(ServerSlot), next, h.width)
    ensures SectionOf(slot).OwnSection? ==>
      ReadOwn(h.config, slot) == OrElse(GivenBy(ByValue(ServerSlot), next, slot), ReadOwn(own, slot))
  {
    hide StringValue, PathValue;
    TextGiven(ServerSlot, next);
    hide CliValue, KindOf;
  }

  lemma OwnFlagSets(option: string, next: Option<Argument>, own: OwnOptions, h: Handled<OwnOptions>, slot: Slot)
    requires OwnOption(option, next, own) == Ok(h) && option in OWN_FLAGS
    ensures OwnMeaning(option) == Some(ByName(DryRun, option == "--dry-run")) && h.width == 1
    ensures SectionOf(slot).OwnSection? ==>
      ReadOwn(h.config, slot) == OrElse(GivenBy(OwnMeaning(option).value, next, slot), ReadOwn(own, slot))
  {
    hide StringValue, PathValue;
  }

  lemma OwnMeaningOptions(option: string)
    requires OwnMeaning(option).Some?
    ensures option in {"--plan", "--checkpoint", "--ca-certificate"} || option == "--server" || option in OWN_FLAGS
  {
  }

  lemma OwnSets(option: string, next: Option<Argument>, own: OwnOptions, h: Handled<OwnOptions>, slot: Slot)
    requires OwnOption(option, next, own) == Ok(h) && OwnMeaning(option).Some?
    ensures Takes(OwnMeaning(option).value, next, h.width)
    ensures SectionOf(OwnMeaning(option).value.slot).OwnSection?
    ensures SectionOf(slot).OwnSection? ==>
      ReadOwn(h.config, slot) == OrElse(GivenBy(OwnMeaning(option).value, next, slot), ReadOwn(own, slot))
  {
    OwnMeaningOptions(option);
    hide OwnOption, OwnMeaning, CliValue, ReadOwn;
    if option in {"--plan", "--checkpoint", "--ca-certificate"} {
      OwnPathSets(option, next, own, h, slot);
    } else if option == "--server" {
      OwnServerSets(next, own, h, slot);
    } else {
      OwnFlagSets(option, next, own, h, slot);
    }
  }

  lemma OwnCollects(option: string, next: Option<Argument>, own: OwnOptions, h: Handled<OwnOptions>)
    requires OwnOption(option, next, own) == Ok(h) && OwnMeaning(option).None?
    ensures option == "--source" || option == "--input"
    ensures h.width == 2 && next.Some?
    ensures forall slot :: ReadOwn(h.config, slot) == ReadOwn(own, slot)
  {
    hide StringValue;
  }

  /** What one round does to a setting. */
  ghost predicate Sets(argument: Argument, next: Option<Argument>, s: State, h: Handled<State>, slot: Slot) {
    && h.width == OptionWidth(argument)
    && (h.width == 2 ==> next.Some?)
    && Read(h.config, slot) == OrElse(Given(argument, next, slot), Read(s, slot))
  }

  lemma ScanStepSets(option: string, next: Option<Argument>, s: State, h: Handled<State>, slot: Slot)
    requires Step(Unicode(option), next, s) == Ok(h) && InScan(option)
    ensures Sets(Unicode(option), next, s, h, slot)
  {
    ScanTakes(option, next, s.upload.scan);
    var scan := ScanOption(option, next, s.upload.scan);
    hide ScanOption, ProductionOption, TakeoutOption, Rest, ScanMeaning, CliValue, SectionOf;
    hide ReadScan, ReadLimits, ReadAlbums, ReadFlags, ReadExecution, ReadProduction, ReadOwn;
    ScanSets(option, next, s.upload.scan, scan.value.value, slot);
  }

  lemma ProductionStepSets(option: string, next: Option<Argument>, s: State, h: Handled<State>, slot: Slot)
    requires Step(Unicode(option), next, s) == Ok(h) && !InScan(option) && InProduction(option)
    ensures Sets(Unicode(option), next, s, h, slot)
  {
    ScanTakes(option, next, s.upload.scan);
    ProductionTakes(option, next, s.production);
    var production := ProductionOption(option, next, s.production);
    hide ScanOption, ProductionOption, TakeoutOption, Rest, ProductionMeaning, CliValue, SectionOf;
    hide ReadScan, ReadLimits, ReadAlbums, ReadFlags, ReadExecution, ReadProduction, ReadOwn;
    ProductionSets(option, next, s.production, production.value.value, slot);
  }

  lemma LimitStepSets(option: string, next: Option<Argument>, s: State, h: Handled<State>, slot: Slot)
    requires Step(Unicode(option), next, s) == Ok(h) && !InScan(option) && !InProduction(option) && option in LIMITS
    ensures Sets(Unicode(option), next, s, h, slot)
  {
    ScanTakes(option, next, s.upload.scan);
    ProductionTakes(option, next, s.production);
    TakeoutTakes(option, next, s.takeout.limits);
    var limits := TakeoutOption(option, next, s.takeout.limits);
    hide ScanOption, ProductionOption, TakeoutOption, Rest, LimitMeaning, CliValue, SectionOf;
    hide ReadScan, ReadLimits, ReadAlbums, ReadFlags, ReadExecution, ReadProduction, ReadOwn;
    LimitsSet(option, next, s.takeout.limits, limits.value.value, slot);
  }

  lemma LateStepIsRest(option: string, next: Option<Argument>, s: State)
    requires !InScan(option) && !InProduction(option) && option !in LIMITS
    ensures Step(Unicode(option), next, s) == Rest(option, next, s)
  {
    ScanTakes(option, next, s.upload.scan);
    ProductionTakes(option, next, s.production);
    TakeoutTakes(option, next, s.takeout.limits);
    hide ScanOption, ProductionOption, TakeoutOption, Rest;
  }

  lemma AlbumStepSets(option: string, next: Option<Argument>, s: State, h: Handled<State>, slot: Slot)
    requires Rest(option, next, s) == Ok(h)
    requires !InScan(option) && !InProduction(option) && option !in LIMITS && option in ALBUM_OPTIONS
    ensures Sets(Unicode(option), next, s, h, slot)
  {
    AppleTakes(option, next, s.apple.albums);
    MeaningWhenLate(option);
    var albums := AppleOption(option, next, s.apple.albums);
    hide AppleOption, PicasaOption, ExecutionOption, ReadAlbums, OwnOption, AlbumMeaning, CliValue, MeaningOf, SectionOf;
    hide ReadScan, ReadLimits, ReadFlags, ReadExecution, ReadProduction, ReadOwn, InScan, InProduction;
    AlbumsSet(option, next, s.apple.albums, albums.value.value, slot);
  }

  lemma PicasaStepSets(option: string, next: Option<Argument>, s: State, h: Handled<State>, slot: Slot)
    requires Rest(option, next, s) == Ok(h)
    requires !InScan(option) && !InProduction(option) && option !in LIMITS && option !in ALBUM_OPTIONS
    requires option in PICASA_FLAGS
    ensures Sets(Unicode(option), next, s, h, slot)
  {
    AppleTakes(option, next, s.apple.albums);
    MeaningWhenLate(option);
    var flags := PicasaOption(option, s.picasa.flags);
    assert flags.Some?;
    hide AppleOption, PicasaOption, ExecutionOption, ReadFlags, OwnOption, PicasaMeaning, CliValue, MeaningOf, SectionOf;
    hide ReadScan, ReadLimits, ReadAlbums, ReadExecution, ReadProduction, ReadOwn, InScan, InProduction;
    FlagsSet(option, next, s.picasa.flags, flags.value, slot);
  }

  lemma RestIsExecution(option: string, next: Option<Argument>, s: State)
    requires option !in ALBUM_OPTIONS && option !in PICASA_FLAGS && option in EXECUTION
    ensures ExecutionOption(option, next, s.upload.execution) != Ok(None)
    ensures Rest(option, next, s)
         == match ExecutionOption(option, next, s.upload.execution)
            case Err(usage) => Err(usage)
            case Ok(taken) =>
              Ok(Handled(s.(upload := s.upload.(execution := taken.value.config)), taken.value.width))
  {
    AppleTakes(option, next, s.apple.albums);
    ExecutionTakes(option, next, s.upload.execution);
    hide AppleOption, ExecutionOption, OwnOption, SetPicasaFlag;
  }

  lemma ExecutionLifts(option: string, next: Option<Argument>, s: State, taken: Handled<ExecutionConfig>, slot: Slot)
    requires ExecutionOption(option, next, s.upload.execution) == Ok(Some(taken))
    requires MeaningOf(option) == Some(ExecutionMeaning(option))
    ensures Sets(Unicode(option), next, s, Handled(s.(upload := s.upload.(execution := taken.config)), taken.width), slot)
  {
    hide ExecutionOption, ExecutionMeaning, CliValue, MeaningOf, SectionOf, InExecution;
    hide ReadScan, ReadLimits, ReadAlbums, ReadFlags, ReadExecution, ReadProduction, ReadOwn;
    ExecutionSets(option, next, s.upload.execution, taken, slot);
  }

  lemma ExecutionStepSets(option: string, next: Option<Argument>, s: State, h: Handled<State>, slot: Slot)
    requires Rest(option, next, s) == Ok(h)
    requires !InScan(option) && !InProduction(option) && option !in LIMITS && option !in ALBUM_OPTIONS
    requires option !in PICASA_FLAGS && option in EXECUTION
    ensures Sets(Unicode(option), next, s, h, slot)
  {
    RestIsExecution(option, next, s);
    MeaningWhenLate(option);
    var execution := ExecutionOption(option, next, s.upload.execution);
    hide Rest, ExecutionOption, ExecutionMeaning, MeaningOf, InScan, InProduction, Sets;
    ExecutionLifts(option, next, s, execution.value.value, slot);
  }

  lemma MeaningWhenLate(option: string)
    requires !InScan(option) && !InProduction(option) && option !in LIMITS
    ensures MeaningOf(option)
         == if option in ALBUM_OPTIONS then Some(AlbumMeaning(option))
            else if option in PICASA_FLAGS then Some(PicasaMeaning(option))
            else if option in EXECUTION then Some(ExecutionMeaning(option))
            else OwnMeaning(option)
  {
  }

  lemma RestIsOwn(option: string, next: Option<Argument>, s: State)
    requires option !in ALBUM_OPTIONS && option !in PICASA_FLAGS && option !in EXECUTION
    ensures Rest(option, next, s)
         == match OwnOption(option, next, s.own)
            case Err(usage) => Err(usage)
            case Ok(own) => Ok(Handled(s.(own := own.config), own.width))
  {
    AppleTakes(option, next, s.apple.albums);
    ExecutionTakes(option, next, s.upload.execution);
    hide AppleOption, ExecutionOption, OwnOption, SetPicasaFlag;
  }

  lemma OwnSettingSets(option: string, next: Option<Argument>, s: State, own: Handled<OwnOptions>, slot: Slot)
    requires OwnOption(option, next, s.own) == Ok(own) && OwnMeaning(option).Some?
    requires MeaningOf(option) == OwnMeaning(option)
    ensures Sets(Unicode(option), next, s, Handled(s.(own := own.config), own.width), slot)
  {
    OwnSets(option, next, s.own, own, slot);
    hide OwnOption, MeaningOf, OwnMeaning, CliValue, SectionOf;
    hide ReadOwn, ReadScan, ReadLimits, ReadAlbums, ReadFlags, ReadExecution, ReadProduction;
  }

  lemma OwnInputSets(option: string, next: Option<Argument>, s: State, own: Handled<OwnOptions>, slot: Slot)
    requires OwnOption(option, next, s.own) == Ok(own) && OwnMeaning(option).None?
    requires MeaningOf(option) == OwnMeaning(option)
    ensures Sets(Unicode(option), next, s, Handled(s.(own := own.config), own.width), slot)
  {
    OwnCollects(option, next, s.own, own);
    hide OwnOption, MeaningOf, OwnMeaning, CliValue, SectionOf;
    hide ReadOwn, ReadScan, ReadLimits, ReadAlbums, ReadFlags, ReadExecution, ReadProduction;
  }

  lemma OwnStepSets(option: string, next: Option<Argument>, s: State, h: Handled<State>, slot: Slot)
    requires Rest(option, next, s) == Ok(h)
    requires !InScan(option) && !InProduction(option) && option !in LIMITS
    requires option !in ALBUM_OPTIONS && option !in PICASA_FLAGS && option !in EXECUTION
    ensures Sets(Unicode(option), next, s, h, slot)
  {
    RestIsOwn(option, next, s);
    MeaningWhenLate(option);
    var own := OwnOption(option, next, s.own);
    hide Rest, OwnOption, MeaningOf, OwnMeaning, InScan, InProduction, Sets;
    if OwnMeaning(option).Some? {
      OwnSettingSets(option, next, s, own.value, slot);
    } else {
      OwnInputSets(option, next, s, own.value, slot);
    }
  }

  /** One round sets exactly the setting its option is for, and takes up one or two arguments that are there. */
  lemma StepSetsOne(argument: Argument, next: Option<Argument>, s: State, slot: Slot)
    requires Step(argument, next, s).Ok?
    ensures Sets(argument, next, s, Step(argument, next, s).value, slot)
    ensures 1 <= Step(argument, next, s).value.width <= 2
  {
    var h := Step(argument, next, s).value;
    assert argument.Unicode?;
    var option := argument.text;
    hide Read, Rest, Given, MeaningOf, InScan, InProduction;
    if InScan(option) {
      hide Step;
      ScanStepSets(option, next, s, h, slot);
    } else if InProduction(option) {
      hide Step;
      ProductionStepSets(option, next, s, h, slot);
    } else if option in LIMITS {
      hide Step;
      LimitStepSets(option, next, s, h, slot);
    } else {
      LateStepIsRest(option, next, s);
      hide Step;
      if option in ALBUM_OPTIONS {
        AlbumStepSets(option, next, s, h, slot);
      } else if option in PICASA_FLAGS {
        PicasaStepSets(option, next, s, h, slot);
      } else if option in EXECUTION {
        ExecutionStepSets(option, next, s, h, slot);
      } else {
        OwnStepSets(option, next, s, h, slot);
      }
    }
  }

  // ---------------------------------------------------------------- the last option wins

  lemma FoldStep(arguments: seq<Argument>, s: State)
    requires |arguments| > 0 && Fold(arguments, s).Ok?
    ensures Step(arguments[0], NextOf(arguments), s).Ok?
    ensures var h := Step(arguments[0], NextOf(arguments), s).value;
      && h.width == OptionWidth(arguments[0]) <= |arguments|
      && Fold(arguments, s) == Fold(arguments[h.width..], h.config)
  {
    StepSetsOne(arguments[0], NextOf(arguments), s, Plan);
    hide Step, Read, Given, OptionWidth;
  }

  /** After all arguments a setting has the last value given to it, or else the value it started with. */
  lemma {:induction false} LastOptionWins(arguments: seq<Argument>, s: State, slot: Slot)
    requires Fold(arguments, s).Ok?
    ensures Read(Fold(arguments, s).value, slot) == OrElse(LastGiven(arguments, slot), Read(s, slot))
    decreases |arguments|
  {
    hide Step, Read, Given, OptionWidth;
    if |arguments| > 0 {
      FoldStep(arguments, s);
      StepSetsOne(arguments[0], NextOf(arguments), s, slot);
      var h := Step(arguments[0], NextOf(arguments), s).value;
      hide Fold;
      LastOptionWins(arguments[h.width..], h.config, slot);
    }
  }

  /** What one option adds to the sources and inputs given on the command line. */
  ghost predicate Collects(argument: Argument, next: Option<Argument>, own: OwnOptions, after: OwnOptions) {
    && after.cliInputs == own.cliInputs + (if argument == Unicode("--input") && next.Some? then [next.value] else [])
    && (if argument == Unicode("--source") then own.cliSource.None? && next.Some? && after.cliSource == next
        else after.cliSource == own.cliSource)
    && (after.serverFromCli <==> own.serverFromCli || argument == Unicode("--server"))
    && (after.caFromCli <==> own.caFromCli || argument == Unicode("--ca-certificate"))
  }

  lemma OwnOptionCollects(option: string, next: Option<Argument>, own: OwnOptions)
    requires OwnOption(option, next, own).Ok?
    ensures Collects(Unicode(option), next, own, OwnOption(option, next, own).value.config)
  {
    hide StringValue;
  }

  lemma OthersCollectNothing(option: string, next: Option<Argument>, own: OwnOptions)
    requires option !in OWN_VALUES
    ensures Collects(Unicode(option), next, own, own)
  {
  }

  lemma StepKeepsOwn(option: string, next: Option<Argument>, s: State)
    requires Step(Unicode(option), next, s).Ok?
    ensures InScan(option) || InProduction(option) || option in LIMITS || option in ALBUM_OPTIONS
            || option in PICASA_FLAGS || option in EXECUTION
            || OwnOption(option, next, s.own).Ok?
    ensures Step(Unicode(option), next, s).value.config.own
         == if InScan(option) || InProduction(option) || option in LIMITS || option in ALBUM_OPTIONS
               || option in PICASA_FLAGS || option in EXECUTION then s.own
            else OwnOption(option, next, s.own).value.config
  {
    ScanTakes(option, next, s.upload.scan);
    ProductionTakes(option, next, s.production);
    TakeoutTakes(option, next, s.takeout.limits);
    AppleTakes(option, next, s.apple.albums);
    ExecutionTakes(option, next, s.upload.execution);
    hide ScanOption, ProductionOption, TakeoutOption, AppleOption, ExecutionOption, OwnOption, SetPicasaFlag;
    hide InScan, InProduction;
  }

  lemma StepCollects(argument: Argument, next: Option<Argument>, s: State)
    requires Step(argument, next, s).Ok?
    ensures Collects(argument, next, s.own, Step(argument, next, s).value.config.own)
  {
    assert argument.Unicode?;
    var option := argument.text;
    StepKeepsOwn(option, next, s);
    hide Step, Collects, OwnOption;
    if InScan(option) {
      ScanOnly(option);
      OthersCollectNothing(option, next, s.own);
    } else if InProduction(option) {
      ProductionOnly(option);
      OthersCollectNothing(option, next, s.own);
    } else if option in LIMITS {
      LimitsOnly(option);
      OthersCollectNothing(option, next, s.own);
    } else if option in ALBUM_OPTIONS {
      AlbumsOnly(option);
      OthersCollectNothing(option, next, s.own);
    } else if option in PICASA_FLAGS {
      PicasaOnly(option);
      OthersCollectNothing(option, next, s.own);
    } else if option in EXECUTION {
      ExecutionOnly(option);
      OthersCollectNothing(option, next, s.own);
    } else {
      OwnOptionCollects(option, next, s.own);
    }
  }

  // ---------------------------------------------------------------- which arguments are accepted

  lemma NumberAccepts(slot: Slot, next: Option<Argument>, max: nat)
    requires KindOf(slot) == NumberKind(max)
    ensures CliValue(ByValue(slot), next).Some? <==> NumberUpTo(next, max).Ok?
  {
    hide ParseU64;
  }

  lemma AnyNumberAccepts(slot: Slot, next: Option<Argument>)
    requires KindOf(slot) == NumberKind(U64_MAX)
    ensures CliValue(ByValue(slot), next).Some? <==> NumberValue(next).Ok?
  {
    NumberAccepts(slot, next, U64_MAX);
    if NumberValue(next).Ok? {
      NumberIsU64(next);
    }
  }

  lemma TextAccepts(slot: Slot, next: Option<Argument>)
    requires KindOf(slot).TextKind?
    ensures CliValue(ByValue(slot), next).Some? <==> StringValue(next).Ok?
  {
  }

  lemma PathAccepts(slot: Slot, next: Option<Argument>)
    requires KindOf(slot).PathKind?
    ensures CliValue(ByValue(slot), next).Some? <==> PathValue(next).Ok?
  {
  }

  lemma ModeAccepts(next: Option<Argument>)
    ensures CliValue(ByValue(AlbumModeSlot), next).Some? <==> ModeValue(next).Ok?
  {
  }

  lemma ScanAccepts(option: string, next: Option<Argument>, scan: ScanConfig)
    requires InScan(option)
    ensures ScanOption(option, next, scan).Ok? <==> CliValue(ScanMeaning(option), next).Some?
  {
    hide NumberValue, SetScanNumber;
    if option in SCAN_NUMBERS {
      NumberKinds(option);
      AnyNumberAccepts(ScanMeaning(option).slot, next);
      hide CliValue;
    }
  }

  lemma ProductionAccepts(option: string, next: Option<Argument>, production: ProductionOptions)
    requires InProduction(option)
    ensures ProductionOption(option, next, production).Ok? <==> CliValue(ProductionMeaning(option), next).Some?
  {
    hide NumberValue, StringValue;
    var meaning := ProductionMeaning(option);
    if meaning.ByValue? {
      if meaning.slot == ExpectedOperations {
        AnyNumberAccepts(meaning.slot, next);
      } else {
        TextAccepts(meaning.slot, next);
      }
      hide CliValue;
    }
  }

  lemma LimitsAccept(option: string, next: Option<Argument>, limits: ArchiveLimits)
    requires option in LIMITS
    ensures TakeoutOption(option, next, limits).Ok? <==> CliValue(LimitMeaning(option), next).Some?
  {
    hide NumberValue, SetLimit;
    AnyNumberAccepts(LimitMeaning(option).slot, next);
    hide CliValue;
  }

  lemma AlbumsAccept(option: string, next: Option<Argument>, albums: AlbumConfig)
    requires option in ALBUM_OPTIONS
    ensures AppleOption(option, next, albums).Ok? <==> CliValue(AlbumMeaning(option), next).Some?
  {
    hide ModeValue, StringValue;
    ModeAccepts(next);
    TextAccepts(AlbumPathJoiner, next);
    hide CliValue;
  }

  lemma ExecutionAccepts(option: string, next: Option<Argument>, config: ExecutionConfig)
    requires option in EXECUTION
    ensures ExecutionOption(option, next, config).Ok? <==> CliValue(ExecutionMeaning(option), next).Some?
  {
    hide NumberValue, NumberUpTo;
    var target := ExecutionMeaning(option).slot;
    if target == MaxAttempts || target == MaxRetries {
      NumberAccepts(target, next, U32_MAX);
    } else {
      AnyNumberAccepts(target, next);
    }
    hide CliValue;
  }

  /** One of the parser's own options; `first` tells whether no source was given before. */
  predicate OwnAcceptable(option: string, next: Option<Argument>, first: bool) {
    match OwnMeaning(option)
    case Some(meaning) => CliValue(meaning, next).Some?
    case None => next.Some? && (option == "--input" || (option == "--source" && first))
  }

  lemma OwnAccepts(option: string, next: Option<Argument>, own: OwnOptions)
    ensures OwnOption(option, next, own).Ok? <==> OwnAcceptable(option, next, own.cliSource.None?)
  {
    hide StringValue, PathValue;
    if option in {"--plan", "--checkpoint", "--ca-certificate"} {
      PathAccepts(OwnMeaning(option).value.slot, next);
    } else if option == "--server" {
      TextAccepts(ServerSlot, next);
    } else if option == "--source" || option == "--input" {
      assert PathValue(next).Ok? <==> next.Some? by {
        PathNeedsNext(next);
      }
    }
    hide CliValue;
  }

  lemma PathNeedsNext(next: Option<Argument>)
    ensures PathValue(next).Ok? <==> next.Some?
  {
  }

  /** An option the parser accepts: a setting with a value of its kind, an input, or a first source. */
  predicate Acceptable(argument: Argument, next: Option<Argument>, first: bool) {
    && argument.Unicode?
    && match MeaningOf(argument.text)
       case Some(meaning) => CliValue(meaning, next).Some?
       case None => next.Some? && (argument.text == "--input" || (argument.text == "--source" && first))
  }

  lemma EarlyStepAccepts(option: string, next: Option<Argument>, s: State)
    requires InScan(option) || InProduction(option) || option in LIMITS
    ensures Step(Unicode(option), next, s).Ok? <==> Acceptable(Unicode(option), next, s.own.cliSource.None?)
  {
    ScanTakes(option, next, s.upload.scan);
    ProductionTakes(option, next, s.production);
    TakeoutTakes(option, next, s.takeout.limits);
    hide ScanOption, ProductionOption, TakeoutOption, Rest, CliValue, ScanMeaning, ProductionMeaning, LimitMeaning;
    if InScan(option) {
      ScanAccepts(option, next, s.upload.scan);
    } else if InProduction(option) {
      ProductionAccepts(option, next, s.production);
    } else {
      LimitsAccept(option, next, s.takeout.limits);
    }
  }

  lemma RestAccepts(option: string, next: Option<Argument>, s: State)
    requires !InScan(option) && !InProduction(option) && option !in LIMITS
    ensures Rest(option, next, s).Ok? <==> Acceptable(Unicode(option), next, s.own.cliSource.None?)
  {
    MeaningWhenLate(option);
    hide CliValue, MeaningOf, InScan, InProduction, AlbumMeaning, PicasaMeaning, ExecutionMeaning, OwnMeaning, OwnOption;
    if option in ALBUM_OPTIONS {
      AppleTakes(option, next, s.apple.albums);
      AlbumsAccept(option, next, s.apple.albums);
      hide AppleOption, PicasaOption, ExecutionOption;
    } else if option in PICASA_FLAGS {
      AppleTakes(option, next, s.apple.albums);
      FlagsAccept(option, next);
      hide AppleOption, ExecutionOption;
    } else if option in EXECUTION {
      RestIsExecution(option, next, s);
      ExecutionAccepts(option, next, s.upload.execution);
      hide Rest, ExecutionOption;
    } else {
      RestIsOwn(option, next, s);
      OwnRestAccepts(option, next, s.own);
      hide Rest;
    }
  }

  lemma FlagsAccept(option: string, next: Option<Argument>)
    ensures CliValue(PicasaMeaning(option), next).Some?
  {
  }

  lemma OwnRestAccepts(option: string, next: Option<Argument>, own: OwnOptions)
    requires MeaningOf(option) == OwnMeaning(option)
    ensures OwnOption(option, next, own).Ok? <==> Acceptable(Unicode(option), next, own.cliSource.None?)
  {
    OwnAccepts(option, next, own);
    hide OwnOption, MeaningOf, OwnMeaning, CliValue;
  }

  lemma StepAccepts(argument: Argument, next: Option<Argument>, s: State)
    ensures Step(argument, next, s).Ok? <==> Acceptable(argument, next, s.own.cliSource.None?)
  {
    if argument.Unicode? {
      var option := argument.text;
      if InScan(option) || InProduction(option) || option in LIMITS {
        EarlyStepAccepts(option, next, s);
      } else {
        LateStepIsRest(option, next, s);
        RestAccepts(option, next, s);
        hide Step, Rest, Acceptable;
      }
    }
  }

  /** The arguments are a list of acceptable options with at most one source. */
  predicate WellFormed(arguments: seq<Argument>, first: bool)
    decreases |arguments|
  {
    |arguments| == 0
    || (&& Acceptable(arguments[0], NextOf(arguments), first)
        && OptionWidth(arguments[0]) <= |arguments|
        && WellFormed(arguments[OptionWidth(arguments[0])..], first && arguments[0] != Unicode("--source")))
  }

  /** The loop succeeds exactly on well-formed arguments. */
  lemma {:induction false} FoldAcceptsExactlyTheWellFormed(arguments: seq<Argument>, s: State)
    ensures Fold(arguments, s).Ok? <==> WellFormed(arguments, s.own.cliSource.None?)
    decreases |arguments|
  {
    hide Step, Acceptable, OptionWidth, Read, Given;
    if |arguments| > 0 {
      var next := NextOf(arguments);
      StepAccepts(arguments[0], next, s);
      var step := Step(arguments[0], next, s);
      if step.Ok? {
        StepSetsOne(arguments[0], next, s, Plan);
        StepCollects(arguments[0], next, s);
        FoldAcceptsExactlyTheWellFormed(arguments[step.value.width..], step.value.config);
      }
    }
  }
}

/** The request `immich-rs apply` makes from its options and the configuration layers:
    `parse_upload`, `sync_source_configs`, `apply_inputs` and `into_request` of
    crates/immich-cli/src/apply_args.rs, and the default layers of args.rs. */
module ApplyRequests {
  import opened ApplyArguments
  import opened ConfigFile
  import opened Configuration
  import opened LayeredConfig
  import opened Sequences
  import opened Settings
  import opened SourceOptions
  import opened Wrappers

  // ---------------------------------------------------------------- what the options collect

  function ListOf<T>(value: Option<T>): seq<T> {
    if value.Some? then [value.value] else []
  }

  /** What all the arguments have added to the sources and inputs. */
  ghost predicate Collected(arguments: seq<Argument>, own: OwnOptions, after: OwnOptions) {
    && after.cliInputs == own.cliInputs + ValuesOf(arguments, "--input")
    && ListOf(after.cliSource) == ListOf(own.cliSource) + ValuesOf(arguments, "--source")
    && (after.serverFromCli <==> own.serverFromCli || ValuesOf(arguments, "--server") != [])
    && (after.caFromCli <==> own.caFromCli || ValuesOf(arguments, "--ca-certificate") != [])
  }

  lemma OwnWidths()
    ensures OptionWidth(Unicode("--input")) == 2 && OptionWidth(Unicode("--source")) == 2
    ensures OptionWidth(Unicode("--server")) == 2 && OptionWidth(Unicode("--ca-certificate")) == 2
  {
    OwnOnly("--input");
    OwnOnly("--source");
    OwnOnly("--server");
    OwnOnly("--ca-certificate");
  }

  lemma OwnOnly(option: string)
    requires option in OWN_VALUES
    ensures MeaningOf(option) == OwnMeaning(option)
  {
  }

  lemma ValuesStep(arguments: seq<Argument>, option: string)
    requires |arguments| > 0 && OptionWidth(arguments[0]) <= |arguments| && OptionWidth(Unicode(option)) == 2
    ensures ValuesOf(arguments, option)
         == (if arguments[0] == Unicode(option) then [arguments[1]] else [])
            + ValuesOf(arguments[OptionWidth(arguments[0])..], option)
  {
    hide OptionWidth;
  }

  lemma CollectedStep(arguments: seq<Argument>, own: OwnOptions, between: OwnOptions, after: OwnOptions)
    requires |arguments| > 0 && OptionWidth(arguments[0]) <= |arguments|
    requires Collects(arguments[0], NextOf(arguments), own, between)
    requires Collected(arguments[OptionWidth(arguments[0])..], between, after)
    ensures Collected(arguments, own, after)
  {
    hide OptionWidth, ValuesOf;
    OwnWidths();
    ValuesStep(arguments, "--input");
    ValuesStep(arguments, "--source");
    ValuesStep(arguments, "--server");
    ValuesStep(arguments, "--ca-certificate");
  }

  lemma {:induction false} FoldCollects(arguments: seq<Argument>, s: State)
    requires Fold(arguments, s).Ok?
    ensures Collected(arguments, s.own, Fold(arguments, s).value.own)
    decreases |arguments|
  {
    hide Step, OptionWidth, Collects, Collected;
    if |arguments| > 0 {
      FoldStep(arguments, s);
      StepCollects(arguments[0], NextOf(arguments), s);
      var h := Step(arguments[0], NextOf(arguments), s).value;
      hide Fold;
      FoldCollects(arguments[h.width..], h.config);
      CollectedStep(arguments, s.own, h.config.own, Fold(arguments[h.width..], h.config).value.own);
    } else {
      NothingCollected(s.own);
    }
  }

  lemma NothingCollected(own: OwnOptions)
    ensures Collected([], own, own)
  {
  }

  // ---------------------------------------------------------------- the starting layers

  /** The defaults of the four configurations. */
  datatype Defaults = Defaults(
    scan: ScanConfig,
    takeoutLimits: ArchiveLimits,
    appleLimits: ArchiveLimits,
    albums: AlbumConfig,
    flags: PicasaFlags,
    execution: ExecutionConfig)

  function GetOr<T>(value: Option<T>, fallback: T): T {
    if value.Some? then value.value else fallback
  }

  /** `folder_config`. */
  function ScanFrom(fallback: ScanConfig, layer: ScanLayer): ScanConfig {
    ScanConfig(
      GetOr(layer.bufferBytes, fallback.bufferBytes),
      GetOr(layer.maxEntries, fallback.maxEntries),
      GetOr(layer.maxDirectoryEntries, fallback.maxDirectoryEntries),
      GetOr(layer.maxPathBytes, fallback.maxPathBytes),
      GetOr(layer.caseSensitive, fallback.caseSensitive))
  }

  function LimitsFrom(fallback: ArchiveLimits, layer: LimitLayer): ArchiveLimits {
    ArchiveLimits(
      GetOr(layer.maxArchives, fallback.maxArchives),
      GetOr(layer.maxArchiveEntryBytes, fallback.maxArchiveEntryBytes),
      GetOr(layer.maxCompressionRatio, fallback.maxCompressionRatio),
      GetOr(layer.compressionRatioGraceBytes, fallback.compressionRatioGraceBytes))
  }

  /** A configured album mode must be valid, even when an option replaces it. */
  function AlbumsFrom(fallback: AlbumConfig, layer: AlbumLayer): Result<AlbumConfig, Usage> {
    var joiner := GetOr(layer.pathJoiner, fallback.pathJoiner);
    if layer.mode.None? then Ok(AlbumConfig(fallback.mode, joiner))
    else
      var mode :- ParseAlbumMode(layer.mode.value);
      Ok(AlbumConfig(mode, joiner))
  }

  function FlagsFrom(fallback: PicasaFlags, layer: PicasaLayer): PicasaFlags {
    PicasaFlags(GetOr(layer.albums, fallback.picasaAlbums), GetOr(layer.filenameDate, fallback.filenameDate))
  }

  function ExecutionFrom(fallback: ExecutionConfig, layer: ExecutionLayer): ExecutionConfig {
    ExecutionConfig(
      GetOr(layer.verificationBufferBytes, fallback.verificationBufferBytes),
      GetOr(layer.concurrency, fallback.concurrency),
      GetOr(layer.maxAttempts, fallback.maxAttempts),
      GetOr(layer.maxRetries, fallback.maxRetries),
      GetOr(layer.retryBaseDelay, fallback.retryBaseDelay),
      GetOr(layer.retryDelayCap, fallback.retryDelayCap))
  }

  const NO_PRODUCTION := ProductionOptions(false, false, None, None, None)

  function OwnFrom(config: Effective): OwnOptions {
    OwnOptions(config.upload.plan, None, [], config.upload.checkpoint, config.immich.server, false,
               config.immich.caCertificate, false, GetOr(config.upload.dryRun, false))
  }

  /** The local variables before the loop (lines 27-40). */
  function Initial(defaults: Defaults, config: Effective): Result<State, Usage> {
    var albums :- AlbumsFrom(defaults.albums, config.albums);
    var scan := ScanFrom(defaults.scan, config.scan);
    var appleLimits := LimitsFrom(defaults.appleLimits, config.limits);
    Ok(State(
      UploadConfig(scan, ExecutionFrom(defaults.execution, config.execution)),
      TakeoutConfig(scan, LimitsFrom(defaults.takeoutLimits, config.limits)),
      AppleConfig(scan, appleLimits, albums),
      PicasaConfig(scan, appleLimits, albums, FlagsFrom(defaults.flags, config.picasa)),
      NO_PRODUCTION,
      OwnFrom(config)))
  }

  /** The default of a setting; archive limits are those of the Takeout configuration. */
  function DefaultOf(defaults: Defaults, slot: Slot): Option<Value> {
    match SectionOf(slot)
    case ScanSection => ReadScan(defaults.scan, slot)
    case LimitSection => ReadLimits(defaults.takeoutLimits, slot)
    case AlbumSection => ReadAlbums(defaults.albums, slot)
    case PicasaSection => ReadFlags(defaults.flags, slot)
    case ExecutionSection => ReadExecution(defaults.execution, slot)
    case ProductionSection => None
    case OwnSection => if slot == DryRun then Some(Flag(false)) else None
  }

  /** Before the options are read, every setting has its configured value, or else its default. */
  lemma ConfigurationWinsOverDefaults(defaults: Defaults, config: Effective, slot: Slot)
    requires Initial(defaults, config).Ok?
    ensures Read(Initial(defaults, config).value, slot) == OrElse(Configured(config, slot), DefaultOf(defaults, slot))
  {
    var s := Initial(defaults, config).value;
    match SectionOf(slot) {
      case ScanSection => ScanStarts(defaults, config, s, slot);
      case LimitSection => LimitsStart(defaults, config, s, slot);
      case AlbumSection => AlbumsStart(defaults, config, s, slot);
      case PicasaSection => FlagsStart(defaults, config, s, slot);
      case ExecutionSection => ExecutionStarts(defaults, config, s, slot);
      case ProductionSection =>
      case OwnSection =>
    }
  }

  lemma ScanStarts(defaults: Defaults, config: Effective, s: State, slot: Slot)
    requires SectionOf(slot).ScanSection? && s.upload.scan == ScanFrom(defaults.scan, config.scan)
    ensures Read(s, slot) == OrElse(Configured(config, slot), DefaultOf(defaults, slot))
  {
  }

  lemma LimitsStart(defaults: Defaults, config: Effective, s: State, slot: Slot)
    requires SectionOf(slot).LimitSection? && s.takeout.limits == LimitsFrom(defaults.takeoutLimits, config.limits)
    ensures Read(s, slot) == OrElse(Configured(config, slot), DefaultOf(defaults, slot))
  {
  }

  lemma AlbumsStart(defaults: Defaults, config: Effective, s: State, slot: Slot)
    requires SectionOf(slot).AlbumSection? && AlbumsFrom(defaults.albums, config.albums) == Ok(s.apple.albums)
    ensures Read(s, slot) == OrElse(Configured(config, slot), DefaultOf(defaults, slot))
  {
  }

  lemma FlagsStart(defaults: Defaults, config: Effective, s: State, slot: Slot)
    requires SectionOf(slot).PicasaSection? && s.picasa.flags == FlagsFrom(defaults.flags, config.picasa)
    ensures Read(s, slot) == OrElse(Configured(config, slot), DefaultOf(defaults, slot))
  {
  }

  lemma ExecutionStarts(defaults: Defaults, config: Effective, s: State, slot: Slot)
    requires SectionOf(slot).ExecutionSection? && s.upload.execution == ExecutionFrom(defaults.execution, config.execution)
    ensures Read(s, slot) == OrElse(Configured(config, slot), DefaultOf(defaults, slot))
  {
  }

  // ---------------------------------------------------------------- the request

  datatype ProductionRequest = ProductionRequest(planSha256: string, expectedOperations: nat, backupReference: string)

  datatype ApplyRequest = ApplyRequest(
    plan: Argument,
    inputs: seq<Argument>,
    checkpoint: Argument,
    server: Option<string>,
    dryRun: bool,
    upload: UploadConfig,
    takeout: TakeoutConfig,
    apple: AppleConfig,
    picasa: PicasaConfig,
    production: Option<ProductionRequest>,
    caCertificate: Option<Argument>)

  /** `sync_source_configs`. */
  function Sync(s: State): State {
    var limits := s.takeout.limits;
    s.(takeout := s.takeout.(scan := s.upload.scan),
       apple := s.apple.(scan := s.upload.scan, limits := limits),
       picasa := s.picasa.(scan := s.upload.scan, limits := limits, albums := s.apple.albums))
  }

  /** All four configurations scan alike, and the three sources have the same archive limits. */
  predicate Shared(upload: UploadConfig, takeout: TakeoutConfig, apple: AppleConfig, picasa: PicasaConfig) {
    && upload.scan == takeout.scan == apple.scan == picasa.scan
    && takeout.limits == apple.limits == picasa.limits
    && apple.albums == picasa.albums
  }

  predicate AnyProduction(options: ProductionOptions) {
    options.read || options.write || options.planSha256.Some? || options.expectedOperations.Some?
    || options.backupReference.Some?
  }

  /** `into_request`. */
  function IntoRequest(options: ProductionOptions, dryRun: bool): Result<Option<ProductionRequest>, Usage> {
    if dryRun || !AnyProduction(options) then Ok(None)
    else if !options.read || !options.write then
      Err(Usage("production apply requires read and write acknowledgements"))
    else if options.planSha256.None? then Err(Usage("production apply requires --confirm-plan-sha256"))
    else if options.expectedOperations.None? then Err(Usage("production apply requires --expected-operations"))
    else if options.backupReference.None? then Err(Usage("production apply requires --backup-reference"))
    else
      Ok(Some(ProductionRequest(options.planSha256.value, options.expectedOperations.value, options.backupReference.value)))
  }

  /** `apply_inputs`. */
  function ApplyInputs(source: Option<Argument>, inputs: seq<Argument>, config: Effective): Result<seq<Argument>, Usage> {
    if source.Some? && inputs != [] then Err(Usage("--source and --input cannot be mixed"))
    else
      var chosen :=
        if inputs != [] then inputs
        else if source.Some? then [source.value]
        else if config.upload.source.Some? then [config.upload.source.value]
        else if config.source.inputs.Some? then config.source.inputs.value
        else ListOf(config.source.source);
      if chosen == [] then Err(Usage("--source or at least one --input is required")) else Ok(chosen)
  }

  /** The checks and the request after the loop (lines 109-134). */
  function Finish(parsed: State, config: Effective): Result<ApplyRequest, Usage> {
    var s := Sync(parsed);
    var own := s.own;
    if own.dryRun && (own.serverFromCli || own.caFromCli) then
      Err(Usage("dry-run does not accept server transport options"))
    else if !own.dryRun && own.server.None? then Err(Usage("--server is required for apply"))
    else
      var production :- IntoRequest(s.production, own.dryRun);
      if own.plan.None? then Err(Usage("--plan is required"))
      else
        var inputs :- ApplyInputs(own.cliSource, own.cliInputs, config);
        if own.checkpoint.None? then Err(Usage("--checkpoint is required"))
        else
          Ok(ApplyRequest(
            own.plan.value, inputs, own.checkpoint.value, if own.dryRun then None else own.server, own.dryRun,
            s.upload, s.takeout, s.apple, s.picasa, production, if own.dryRun then None else own.caCertificate))
  }

  /** `parse_upload`. */
  function ParseUpload(defaults: Defaults, arguments: seq<Argument>, config: Effective): Result<ApplyRequest, Usage> {
    var initial :- Initial(defaults, config);
    var parsed :- Fold(arguments, initial);
    Finish(parsed, config)
  }

  /** A setting of a finished request; production settings are not kept one by one. */
  function ReadRequest(request: ApplyRequest, slot: Slot): Option<Value> {
    match SectionOf(slot)
    case ScanSection => ReadScan(request.upload.scan, slot)
    case LimitSection => ReadLimits(request.takeout.limits, slot)
    case AlbumSection => ReadAlbums(request.apple.albums, slot)
    case PicasaSection => ReadFlags(request.picasa.flags, slot)
    case ExecutionSection => ReadExecution(request.upload.execution, slot)
    case ProductionSection => ReadProductionRequest(request.production, slot)
    case OwnSection =>
      match slot
      case Plan => Some(Path(request.plan))
      case Checkpoint => Some(Path(request.checkpoint))
      case ServerSlot => AsText(request.server)
      case CaCertificate => AsPath(request.caCertificate)
      case DryRun => Some(Flag(request.dryRun))
      case _ => None
  }

  function ReadProductionRequest(production: Option<ProductionRequest>, slot: Slot): Option<Value> {
    if production.None? then None
    else
      match slot
      case PlanSha256 => Some(Text(production.value.planSha256))
      case ExpectedOperations => Some(Number(production.value.expectedOperations))
      case BackupReference => Some(Text(production.value.backupReference))
      case _ => Some(Flag(true))
  }

  /** The settings a dry run drops: the transport and the production confirmation. */
  predicate DroppedByDryRun(slot: Slot) {
    slot == ServerSlot || slot == CaCertificate || SectionOf(slot).ProductionSection?
  }

  lemma FinishParts(parsed: State, config: Effective)
    requires Finish(parsed, config).Ok?
    ensures var request, own := Finish(parsed, config).value, parsed.own;
      && request.upload == parsed.upload && request.takeout.limits == parsed.takeout.limits
      && request.apple.albums == parsed.apple.albums && request.picasa.flags == parsed.picasa.flags
      && IntoRequest(parsed.production, own.dryRun) == Ok(request.production)
      && own.plan == Some(request.plan) && own.checkpoint == Some(request.checkpoint) && own.dryRun == request.dryRun
      && request.server == (if own.dryRun then None else own.server)
      && request.caCertificate == (if own.dryRun then None else own.caCertificate)
  {
    hide ApplyInputs, IntoRequest;
  }

  lemma OwnKept(parsed: State, request: ApplyRequest, slot: Slot)
    requires var own := parsed.own;
      && own.plan == Some(request.plan) && own.checkpoint == Some(request.checkpoint) && own.dryRun == request.dryRun
      && request.server == (if own.dryRun then None else own.server)
      && request.caCertificate == (if own.dryRun then None else own.caCertificate)
    requires SectionOf(slot).OwnSection?
    ensures ReadRequest(request, slot) == if request.dryRun && DroppedByDryRun(slot) then None else Read(parsed, slot)
  {
    hide ReadProduction, ReadProductionRequest, ReadScan, ReadLimits, ReadAlbums, ReadFlags, ReadExecution;
  }

  lemma DryRunIsRead(parsed: State)
    ensures Read(parsed, DryRun) == Some(Flag(parsed.own.dryRun))
  {
  }

  lemma FinishKeeps(parsed: State, config: Effective, slot: Slot)
    requires Finish(parsed, config).Ok?
    ensures var request := Finish(parsed, config).value;
      && Read(parsed, DryRun) == Some(Flag(request.dryRun))
      && ReadRequest(request, slot) == if request.dryRun && DroppedByDryRun(slot) then None else Read(parsed, slot)
  {
    FinishParts(parsed, config);
    DryRunIsRead(parsed);
    var request := Finish(parsed, config).value;
    hide Finish, IntoRequest, SectionOf, Read, ReadRequest, DroppedByDryRun;
    if SectionOf(slot).ProductionSection? {
      ProductionIsKept(parsed, request, slot);
    } else if SectionOf(slot).OwnSection? {
      OwnKept(parsed, request, slot);
    } else {
      ConfigurationKept(parsed, request, slot);
    }
  }

  lemma ConfigurationKept(parsed: State, request: ApplyRequest, slot: Slot)
    requires request.upload == parsed.upload && request.takeout.limits == parsed.takeout.limits
    requires request.apple.albums == parsed.apple.albums && request.picasa.flags == parsed.picasa.flags
    requires !SectionOf(slot).OwnSection? && !SectionOf(slot).ProductionSection?
    ensures ReadRequest(request, slot) == Read(parsed, slot) && !DroppedByDryRun(slot)
  {
    hide ReadScan, ReadLimits, ReadAlbums, ReadFlags, ReadExecution;
  }

  lemma ProductionIsKept(parsed: State, request: ApplyRequest, slot: Slot)
    requires IntoRequest(parsed.production, request.dryRun) == Ok(request.production)
    requires SectionOf(slot).ProductionSection?
    ensures ReadRequest(request, slot) == (if request.dryRun then None else Read(parsed, slot)) && DroppedByDryRun(slot)
  {
    ProductionKept(parsed.production, request.dryRun, slot);
    hide IntoRequest, SectionOf, ReadProduction, ReadProductionRequest;
  }

  /** A production request is made exactly when it is not a dry run and any of the options is given,
      and then from all of them. */
  lemma ProductionKept(options: ProductionOptions, dryRun: bool, slot: Slot)
    requires IntoRequest(options, dryRun).Ok? && SectionOf(slot).ProductionSection?
    ensures IntoRequest(options, dryRun).value.Some? <==> !dryRun && AnyProduction(options)
    ensures ReadProductionRequest(IntoRequest(options, dryRun).value, slot)
         == if dryRun then None else ReadProduction(options, slot)
  {
  }

  /** The value a configuration file gives to a setting, if there is a file. */
  function FromFile(document: Option<Table>, slot: Slot): Option<Value> {
    if document.None? then None else FileSetting(document.value, slot)
  }

  /** The layers of a setting: the last option, else the environment, else the file, else the default. */
  ghost function Layered(defaults: Defaults, environment: Environment, document: Option<Table>, arguments: seq<Argument>,
                         slot: Slot): Option<Value>
  {
    OrElse(
      LastGiven(arguments, slot),
      OrElse(if IsSet(environment, slot) then EnvironmentValue(environment, slot) else FromFile(document, slot),
             DefaultOf(defaults, slot)))
  }

  /** Loading the configuration, then parsing the arguments that are left. */
  function Run(readers: Readers, defaults: Defaults, environment: Environment, arguments: seq<Argument>)
    : Result<ApplyRequest, Usage>
  {
    var loaded :- Load(readers, environment, arguments);
    ParseUpload(defaults, loaded.arguments, loaded.config)
  }

  /** What a run reads: the parsed file it chooses, if any, and the arguments that are left for the parser. */
  ghost predicate Reads(readers: Readers, environment: Environment, arguments: seq<Argument>, document: Option<Table>,
                        rest: seq<Argument>)
  {
    && Extract(arguments, None).Ok?
    && Extract(arguments, None).value.rest == rest
    && var chosen := ChosenFile(environment, Extract(arguments, None).value.path);
    && chosen.Ok?
    && match chosen.value
       case None => document == None
       case Some(path) => document.Some? && ReadDocument(readers, path) == Ok(document.value)
  }

  /** The layer a parsed file makes. */
  function LayerOf(document: Option<Table>): Result<Effective, Usage> {
    if document.None? then Ok(EMPTY) else LoadDocument(document.value)
  }

  lemma LayerIsTheFile(document: Option<Table>, file: Effective, slot: Slot)
    requires LayerOf(document) == Ok(file)
    ensures Configured(file, slot) == FromFile(document, slot)
  {
    if document.Some? {
      FileSettingsAreKept(document.value, slot);
      hide LoadDocument, Configured, FileSetting;
    }
  }

  /** A run that succeeds has loaded the layer of its file, and parsed the rest over the overlaid layer. */
  lemma RunParts(readers: Readers, defaults: Defaults, environment: Environment, arguments: seq<Argument>)
    returns (document: Option<Table>, rest: seq<Argument>, file: Effective, config: Effective)
    requires Run(readers, defaults, environment, arguments).Ok?
    ensures Reads(readers, environment, arguments, document, rest) && ValidNames(environment)
    ensures LayerOf(document) == Ok(file) && Overlay(readers.json, environment, file) == Ok(config)
    ensures Run(readers, defaults, environment, arguments) == ParseUpload(defaults, rest, config)
  {
    hide Extract, ReadDocument, LoadDocument, Overlay, ParseUpload, ChosenFile;
    var extracted := Extract(arguments, None).value;
    rest := extracted.rest;
    var chosen := ChosenFile(environment, extracted.path).value;
    document := if chosen.None? then None else Some(ReadDocument(readers, chosen.value).value);
    file := FileLayer(readers, environment, extracted.path).value;
    config := Overlay(readers.json, environment, file).value;
  }

  lemma ParsedLayers(defaults: Defaults, arguments: seq<Argument>, config: Effective, slot: Slot)
    requires ParseUpload(defaults, arguments, config).Ok?
    ensures var request := ParseUpload(defaults, arguments, config).value;
      !(request.dryRun && DroppedByDryRun(slot)) ==>
      ReadRequest(request, slot)
      == OrElse(LastGiven(arguments, slot), OrElse(Configured(config, slot), DefaultOf(defaults, slot)))
  {
    var initial := Initial(defaults, config).value;
    ConfigurationWinsOverDefaults(defaults, config, slot);
    LastOptionWins(arguments, initial, slot);
    FinishKeeps(Fold(arguments, initial).value, config, slot);
    hide Fold, Initial, Finish, Read, ReadRequest, Configured, LastGiven;
  }

  lemma LayersOfParts(readers: Readers, defaults: Defaults, environment: Environment, document: Option<Table>,
                      file: Effective, rest: seq<Argument>, config: Effective, slot: Slot)
    requires LayerOf(document) == Ok(file) && Overlay(readers.json, environment, file) == Ok(config)
    requires ParseUpload(defaults, rest, config).Ok?
    ensures var request := ParseUpload(defaults, rest, config).value;
      ReadRequest(request, slot)
      == if request.dryRun && DroppedByDryRun(slot) then None else Layered(defaults, environment, document, rest, slot)
  {
    hide Overlay, ParseUpload, ReadRequest, Configured, LastGiven, EnvironmentValue, DefaultOf, LayerOf, FromFile;
    hide IsSet, SectionOf, DroppedByDryRun;
    ParsedLayers(defaults, rest, config, slot);
    DroppedAreNone(defaults, rest, config, slot);
    EnvironmentWinsOverFile(readers.json, environment, file, slot);
    WinsMeans(environment, slot, Configured(config, slot), Configured(file, slot));
    LayerIsTheFile(document, file, slot);
  }

  lemma WinsMeans(environment: Environment, slot: Slot, value: Option<Value>, below: Option<Value>)
    requires Wins(environment, slot, value, below)
    ensures value == if IsSet(environment, slot) then EnvironmentValue(environment, slot) else below
  {
    hide VariableOf, KindOf, VariableValue;
  }

  /** Every setting of a successful run is the last option given, else its environment variable, else
      the configuration file, else the default. The transport and the production confirmation are
      dropped by a dry run. */
  lemma CliOverEnvironmentOverFileOverDefault(readers: Readers, defaults: Defaults, environment: Environment,
                                              arguments: seq<Argument>, request: ApplyRequest, document: Option<Table>,
                                              rest: seq<Argument>, slot: Slot)
    requires Run(readers, defaults, environment, arguments) == Ok(request)
    requires Reads(readers, environment, arguments, document, rest)
    ensures ReadRequest(request, slot)
         == if request.dryRun && DroppedByDryRun(slot) then None else Layered(defaults, environment, document, rest, slot)
  {
    var document', rest', file, config := RunParts(readers, defaults, environment, arguments);
    assert document' == document && rest' == rest;
    hide Run, Reads, LayerOf, Overlay, ParseUpload, ReadRequest, Layered, DroppedByDryRun;
    LayersOfParts(readers, defaults, environment, document, file, rest, config, slot);
  }

  lemma DroppedAreNone(defaults: Defaults, arguments: seq<Argument>, config: Effective, slot: Slot)
    requires ParseUpload(defaults, arguments, config).Ok?
    ensures var request := ParseUpload(defaults, arguments, config).value;
      request.dryRun && DroppedByDryRun(slot) ==> ReadRequest(request, slot) == None
  {
    FinishKeeps(Fold(arguments, Initial(defaults, config).value).value, config, slot);
    hide Fold, Initial, Finish, Read, ReadRequest;
  }

  // ---------------------------------------------------------------- sharing, modes and inputs

  /** The configurations of every request share their common settings. A dry run has no transport and
      no production confirmation, and was not given any transport option; any other run has a server. */
  lemma RequestsAreConsistent(defaults: Defaults, arguments: seq<Argument>, config: Effective)
    requires ParseUpload(defaults, arguments, config).Ok?
    ensures var request := ParseUpload(defaults, arguments, config).value;
      && Shared(request.upload, request.takeout, request.apple, request.picasa)
      && (request.server.Some? <==> !request.dryRun)
      && (request.dryRun ==> request.caCertificate == None && request.production == None)
      && (request.dryRun ==> ValuesOf(arguments, "--server") == [] && ValuesOf(arguments, "--ca-certificate") == [])
  {
    var initial := Initial(defaults, config).value;
    FoldCollects(arguments, initial);
    assert !initial.own.serverFromCli && !initial.own.caFromCli;
    hide Fold, Initial, ApplyInputs, ValuesOf;
  }

  /** The inputs: `--input` values in order, else the one `--source`, else the configured upload
      source, else the configured inputs, else the configured source; never none, and never both kinds. */
  lemma InputsComeFromTheFirstSource(defaults: Defaults, arguments: seq<Argument>, config: Effective)
    requires ParseUpload(defaults, arguments, config).Ok?
    ensures var request := ParseUpload(defaults, arguments, config).value;
      var inputs, sources := ValuesOf(arguments, "--input"), ValuesOf(arguments, "--source");
      && request.inputs != []
      && (inputs == [] || sources == []) && |sources| <= 1
      && request.inputs
         == (if inputs != [] then inputs
             else if sources != [] then sources
             else if config.upload.source.Some? then [config.upload.source.value]
             else if config.source.inputs.Some? then config.source.inputs.value
             else ListOf(config.source.source))
  {
    var initial := Initial(defaults, config).value;
    FoldCollects(arguments, initial);
    assert initial.own.cliInputs == [] && initial.own.cliSource == None;
    var own := Fold(arguments, initial).value.own;
    assert [] + ValuesOf(arguments, "--input") == ValuesOf(arguments, "--input");
    assert [] + ValuesOf(arguments, "--source") == ValuesOf(arguments, "--source");
    hide Fold, Initial, IntoRequest, ValuesOf;
    assert own.cliInputs == ValuesOf(arguments, "--input");
    assert ListOf(own.cliSource) == ValuesOf(arguments, "--source");
    assert ApplyInputs(own.cliSource, own.cliInputs, config).Ok?;
  }

  /** The precedence is per setting: an upload source in the file hides inputs from the environment. */
  lemma FileUploadSourceHidesEnvironmentInputs(readers: Readers, defaults: Defaults, environment: Environment,
                                               arguments: seq<Argument>, request: ApplyRequest, document: Table,
                                               rest: seq<Argument>, source: Argument)
    requires Run(readers, defaults, environment, arguments) == Ok(request)
    requires Reads(readers, environment, arguments, Some(document), rest)
    requires UPLOAD_SOURCE_VARIABLE !in environment
    requires FileValue(document, Key("upload", "source"), PathKind) == Some(Path(source))
    requires ValuesOf(rest, "--input") == [] && ValuesOf(rest, "--source") == []
    ensures request.inputs == [source]
  {
    var document', rest', file, config := RunParts(readers, defaults, environment, arguments);
    assert document' == Some(document) && rest' == rest;
    UploadSourceKept(document);
    hide Run, Reads, LoadDocument, FileValue, Overlay, ParseUpload, ValuesOf, OverlayUpload;
    InputsComeFromTheFirstSource(defaults, rest, config);
    OverlaySections(readers.json, environment, file);
    UnsetKeepsUploadSource(environment, file.upload);
  }

  lemma UnsetKeepsUploadSource(environment: Environment, layer: UploadLayer)
    requires UPLOAD_SOURCE_VARIABLE !in environment && OverlayUpload(environment, layer).Ok?
    ensures OverlayUpload(environment, layer).value.source == layer.source
  {
    hide SetBool;
  }

  // ---------------------------------------------------------------- the loop

  /** `parse_upload` (lines 22-135). */
  method ParseArguments(defaults: Defaults, arguments: seq<Argument>, config: Effective) returns (r: Result<ApplyRequest, Usage>)
    ensures r == ParseUpload(defaults, arguments, config)
    ensures r.Ok? ==> Shared(r.value.upload, r.value.takeout, r.value.apple, r.value.picasa)
    ensures r.Ok? ==> (r.value.server.Some? <==> !r.value.dryRun)
  {
    hide Step, Finish, Initial;
    var initial := Initial(defaults, config);
    if initial.Err? {
      return Err(initial.error);
    }
    var state, index := initial.value, 0;
    assert arguments[0..] == arguments;
    while index < |arguments|
      invariant 0 <= index <= |arguments|
      invariant Fold(arguments, initial.value) == Fold(arguments[index..], state)
    {
      var left := arguments[index..];
      var next := if index + 1 < |arguments| then Some(arguments[index + 1]) else None;
      assert next == NextOf(left);
      var handled := Step(arguments[index], next, state);
      if handled.Err? {
        return Err(handled.error);
      }
      StepSetsOne(left[0], next, state, Plan);
      assert left[handled.value.width..] == arguments[index + handled.value.width..];
      index := index + handled.value.width;
      state := handled.value.config;
    }
    r := Finish(state, config);
    if r.Ok? {
      RequestsAreConsistent(defaults, arguments, config);
    }
  }

  /** The command: the configuration object is filled from the file, overlaid by the environment, and
      read by the parser. */
  method LoadAndParse(readers: Readers, defaults: Defaults, environment: Environment, arguments: seq<Argument>)
    returns (r: Result<ApplyRequest, Usage>)
    ensures r == Run(readers, defaults, environment, arguments)
  {
    hide Extract, FileLayer, Overlay, ParseUpload, ValidNames;
    var extracted :- ExtractConfigArgument(arguments);
    var known := ValidateNames(environment);
    if !known {
      return Err(Usage("unknown immich-rs environment variable"));
    }
    var file :- FileLayer(readers, environment, extracted.path);
    var config := new EffectiveConfig(file);
    var overlaid := config.OverlayEnvironment(readers.json, environment);
    if overlaid.Err? {
      return Err(overlaid.error);
    }
    r := ParseArguments(defaults, extracted.rest, config.Contents());
  }
}

/** When `immich-rs apply` makes a request: the exact conditions on the settings and on the options. */
module ApplyAcceptance {
  import opened ApplyArguments
  import opened ApplyRequests
  import opened Configuration
  import opened Settings
  import opened SourceOptions
  import opened Wrappers

  /** The value of a setting after all layers: the last option, else the configuration, else the default. */
  function Final(defaults: Defaults, arguments: seq<Argument>, config: Effective, slot: Slot): Option<Value> {
    OrElse(LastGiven(arguments, slot), OrElse(Configured(config, slot), DefaultOf(defaults, slot)))
  }

  predicate IsDryRun(defaults: Defaults, arguments: seq<Argument>, config: Effective) {
    Final(defaults, arguments, config, DryRun) == Some(Flag(true))
  }

  /** A dry run is not given a transport; any other run has a server. */
  predicate TransportFits(defaults: Defaults, arguments: seq<Argument>, config: Effective) {
    if IsDryRun(defaults, arguments, config) then
      ValuesOf(arguments, "--server") == [] && ValuesOf(arguments, "--ca-certificate") == []
    else Final(defaults, arguments, config, ServerSlot).Some?
  }

  /** The five production options are given together or not at all, unless the run is dry. */
  predicate ConfirmationFits(defaults: Defaults, arguments: seq<Argument>, config: Effective) {
    || IsDryRun(defaults, arguments, config)
    || (&& LastGiven(arguments, ProductionRead).Some? && LastGiven(arguments, ProductionWrite).Some?
        && LastGiven(arguments, PlanSha256).Some? && LastGiven(arguments, ExpectedOperations).Some?
        && LastGiven(arguments, BackupReference).Some?)
    || (&& LastGiven(arguments, ProductionRead).None? && LastGiven(arguments, ProductionWrite).None?
        && LastGiven(arguments, PlanSha256).None? && LastGiven(arguments, ExpectedOperations).None?
        && LastGiven(arguments, BackupReference).None?)
  }

  /** Some input is given or configured, and not by both options. */
  predicate InputsFit(arguments: seq<Argument>, config: Effective) {
    var inputs, sources := ValuesOf(arguments, "--input"), ValuesOf(arguments, "--source");
    && (inputs == [] || sources == [])
    && (inputs != [] || sources != [] || config.upload.source.Some?
        || (if config.source.inputs.Some? then config.source.inputs.value != [] else config.source.source.Some?))
  }

  /** A configured album mode is one of the three. */
  predicate AlbumModeFits(config: Effective) {
    config.albums.mode.Some? ==> config.albums.mode.value in {"none", "folder", "path"}
  }

  lemma InitialExactly(defaults: Defaults, config: Effective)
    ensures Initial(defaults, config).Ok? <==> AlbumModeFits(config)
  {
  }

  lemma OwnReads(s: State)
    ensures Read(s, DryRun) == Some(Flag(s.own.dryRun))
    ensures Read(s, ServerSlot).Some? <==> s.own.server.Some?
    ensures Read(s, Plan).Some? <==> s.own.plan.Some?
    ensures Read(s, Checkpoint).Some? <==> s.own.checkpoint.Some?
  {
    hide ReadScan, ReadLimits, ReadAlbums, ReadFlags, ReadExecution, ReadProduction;
  }

  lemma ProductionReads(s: State)
    ensures Read(s, ProductionRead).Some? <==> s.production.read
    ensures Read(s, ProductionWrite).Some? <==> s.production.write
    ensures Read(s, PlanSha256).Some? <==> s.production.planSha256.Some?
    ensures Read(s, ExpectedOperations).Some? <==> s.production.expectedOperations.Some?
    ensures Read(s, BackupReference).Some? <==> s.production.backupReference.Some?
  {
    hide ReadScan, ReadLimits, ReadAlbums, ReadFlags, ReadExecution, ReadOwn;
  }

  /** After the loop each setting has its final value. */
  lemma ParsedIsFinal(defaults: Defaults, arguments: seq<Argument>, config: Effective, parsed: State, slot: Slot)
    requires Initial(defaults, config).Ok? && Fold(arguments, Initial(defaults, config).value) == Ok(parsed)
    ensures Read(parsed, slot) == Final(defaults, arguments, config, slot)
  {
    hide Initial, Fold, Read, Configured, DefaultOf, LastGiven;
    ConfigurationWinsOverDefaults(defaults, config, slot);
    LastOptionWins(arguments, Initial(defaults, config).value, slot);
  }

  lemma NoProductionConfigured(defaults: Defaults, arguments: seq<Argument>, config: Effective, slot: Slot)
    requires slot in {ProductionRead, ProductionWrite, PlanSha256, ExpectedOperations, BackupReference}
    ensures Final(defaults, arguments, config, slot) == LastGiven(arguments, slot)
  {
    hide LastGiven;
  }

  /** What the checks after the loop ask of the parsed options. */
  lemma FinishesExactly(parsed: State, config: Effective)
    ensures ApplyRequests.Finish(parsed, config).Ok? <==>
      && (if parsed.own.dryRun then !parsed.own.serverFromCli && !parsed.own.caFromCli else parsed.own.server.Some?)
      && IntoRequest(parsed.production, parsed.own.dryRun).Ok?
      && parsed.own.plan.Some? && parsed.own.checkpoint.Some?
      && ApplyInputs(parsed.own.cliSource, parsed.own.cliInputs, config).Ok?
  {
    hide ApplyInputs, IntoRequest;
  }

  lemma IntoRequestExactly(options: ProductionOptions, dryRun: bool)
    ensures IntoRequest(options, dryRun).Ok? <==>
      || dryRun
      || (options.read && options.write && options.planSha256.Some? && options.expectedOperations.Some?
          && options.backupReference.Some?)
      || (!options.read && !options.write && options.planSha256.None? && options.expectedOperations.None?
          && options.backupReference.None?)
  {
  }

  lemma InputsExactly(arguments: seq<Argument>, source: Option<Argument>, inputs: seq<Argument>, config: Effective)
    requires inputs == ValuesOf(arguments, "--input") && ListOf(source) == ValuesOf(arguments, "--source")
    ensures ApplyInputs(source, inputs, config).Ok? <==> InputsFit(arguments, config)
  {
    hide ValuesOf;
  }

  lemma CollectedFromNothing(defaults: Defaults, arguments: seq<Argument>, config: Effective, parsed: State)
    requires Initial(defaults, config).Ok? && Fold(arguments, Initial(defaults, config).value) == Ok(parsed)
    ensures parsed.own.cliInputs == ValuesOf(arguments, "--input")
    ensures ListOf(parsed.own.cliSource) == ValuesOf(arguments, "--source")
    ensures parsed.own.serverFromCli <==> ValuesOf(arguments, "--server") != []
    ensures parsed.own.caFromCli <==> ValuesOf(arguments, "--ca-certificate") != []
  {
    hide Fold, ValuesOf;
    var own := Initial(defaults, config).value.own;
    FoldCollects(arguments, Initial(defaults, config).value);
    assert own.cliInputs == [] && ListOf(own.cliSource) == [] && !own.serverFromCli && !own.caFromCli;
    assert [] + ValuesOf(arguments, "--input") == ValuesOf(arguments, "--input");
    assert [] + ValuesOf(arguments, "--source") == ValuesOf(arguments, "--source");
  }

  lemma ChecksExactly(defaults: Defaults, arguments: seq<Argument>, config: Effective, parsed: State)
    requires Initial(defaults, config).Ok? && Fold(arguments, Initial(defaults, config).value) == Ok(parsed)
    ensures ApplyRequests.Finish(parsed, config).Ok? <==>
      && TransportFits(defaults, arguments, config) && ConfirmationFits(defaults, arguments, config)
      && InputsFit(arguments, config)
      && Final(defaults, arguments, config, Plan).Some? && Final(defaults, arguments, config, Checkpoint).Some?
  {
    FinishesExactly(parsed, config);
    IntoRequestExactly(parsed.production, parsed.own.dryRun);
    OwnReads(parsed);
    ProductionReads(parsed);
    CollectedFromNothing(defaults, arguments, config, parsed);
    InputsExactly(arguments, parsed.own.cliSource, parsed.own.cliInputs, config);
    hide Initial, Fold, Read, Final, ApplyRequests.Finish, IntoRequest, ApplyInputs, InputsFit, LastGiven, ValuesOf;
    forall slot ensures Read(parsed, slot) == Final(defaults, arguments, config, slot) {
      ParsedIsFinal(defaults, arguments, config, parsed, slot);
    }
    forall slot | slot in {ProductionRead, ProductionWrite, PlanSha256, ExpectedOperations, BackupReference}
      ensures Final(defaults, arguments, config, slot) == LastGiven(arguments, slot)
    {
      NoProductionConfigured(defaults, arguments, config, slot);
    }
  }

  /** A request is made exactly for known options with fitting values and at most one source, a usable
      album mode, a plan, a checkpoint, some input of one kind, a transport where one is used, and either
      all production options or none. */
  lemma RequestsAreMadeExactly(defaults: Defaults, arguments: seq<Argument>, config: Effective)
    ensures ApplyRequests.ParseUpload(defaults, arguments, config).Ok? <==>
      && AlbumModeFits(config) && WellFormed(arguments, true)
      && TransportFits(defaults, arguments, config) && ConfirmationFits(defaults, arguments, config)
      && InputsFit(arguments, config)
      && Final(defaults, arguments, config, Plan).Some? && Final(defaults, arguments, config, Checkpoint).Some?
  {
    InitialExactly(defaults, config);
    if AlbumModeFits(config) {
      var initial := Initial(defaults, config).value;
      assert initial.own.cliSource == None;
      FoldAcceptsExactlyTheWellFormed(arguments, initial);
      hide Initial, Fold, WellFormed, TransportFits, ConfirmationFits, InputsFit, Final, AlbumModeFits,
           ApplyRequests.Finish;
      var parsed := Fold(arguments, initial);
      if parsed.Ok? {
        ChecksExactly(defaults, arguments, config, parsed.value);
      }
    }
  }
}

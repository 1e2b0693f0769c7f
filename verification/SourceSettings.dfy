/** What the source parsers make of their arguments, setting by setting: the last value given to a
    setting, or else the value it started with. */
module SourceSettings {
  import opened ApplyArguments
  import opened Sequences
  import opened Settings
  import opened SourceOptions
  import opened Wrappers

  // ---------------------------------------------------------------- the options by name

  function ScanTable(option: string): Option<Meaning> {
    match option
    case "--buffer-bytes" => Some(ByValue(BufferBytes))
    case "--max-entries" => Some(ByValue(MaxEntries))
    case "--max-directory-entries" => Some(ByValue(MaxDirectoryEntries))
    case "--max-path-bytes" => Some(ByValue(MaxPathBytes))
    case "--case-sensitive" => Some(ByName(CaseSensitive, true))
    case "--case-insensitive" => Some(ByName(CaseSensitive, false))
    case _ => None
  }

  function LimitTable(option: string): Option<Meaning> {
    match option
    case "--max-archives" => Some(ByValue(MaxArchives))
    case "--max-archive-entry-bytes" => Some(ByValue(MaxArchiveEntryBytes))
    case "--max-compression-ratio" => Some(ByValue(MaxCompressionRatio))
    case "--compression-ratio-grace-bytes" => Some(ByValue(CompressionRatioGraceBytes))
    case _ => None
  }

  function AlbumTable(option: string): Option<Meaning> {
    match option
    case "--album-mode" => Some(ByValue(AlbumModeSlot))
    case "--album-path-joiner" => Some(ByValue(AlbumPathJoiner))
    case _ => None
  }

  function FlagTable(option: string): Option<Meaning> {
    match option
    case "--picasa-albums" => Some(ByName(PicasaAlbums, true))
    case "--no-picasa-albums" => Some(ByName(PicasaAlbums, false))
    case "--filename-date" => Some(ByName(FilenameDate, true))
    case "--no-filename-date" => Some(ByName(FilenameDate, false))
    case _ => None
  }

  /** The setting an option is for, in each of the four commands; `--label` is handled apart. */
  function SourceMeaning(grammar: Grammar, option: string): Option<Meaning> {
    OrElse(ScanTable(option),
           match grammar
           case FolderGrammar => None
           case TakeoutGrammar => LimitTable(option)
           case AppleGrammar => OrElse(LimitTable(option), AlbumTable(option))
           case PicasaGrammar => OrElse(LimitTable(option), OrElse(AlbumTable(option), FlagTable(option))))
  }

  /** An argument that does not begin with a dash is an input. */
  predicate IsInput(argument: Argument) {
    argument.Unicode? ==> argument.text == "" || argument.text[0] != '-'
  }

  function MeaningIn(grammar: Grammar, argument: Argument): Option<Meaning> {
    if argument.Unicode? then SourceMeaning(grammar, argument.text) else None
  }

  const LABEL := Unicode("--label")

  /** How many arguments one in option position takes up. */
  function SourceWidth(grammar: Grammar, argument: Argument): (width: nat)
    ensures 1 <= width <= 2
  {
    if argument == LABEL then 2
    else
      match MeaningIn(grammar, argument)
      case None => 1
      case Some(meaning) => if meaning.ByName? then 1 else 2
  }

  function GivenIn(grammar: Grammar, argument: Argument, next: Option<Argument>, slot: Slot): Option<Value> {
    match MeaningIn(grammar, argument)
    case None => None
    case Some(meaning) => GivenBy(meaning, next, slot)
  }

  /** The last value the arguments give to a setting. */
  function LastIn(grammar: Grammar, arguments: seq<Argument>, slot: Slot): Option<Value>
    decreases |arguments|
  {
    if |arguments| == 0 then None
    else
      var width := SourceWidth(grammar, arguments[0]);
      OrElse(if width <= |arguments| then LastIn(grammar, arguments[width..], slot) else None,
             GivenIn(grammar, arguments[0], NextOf(arguments), slot))
  }

  function LabelIn(argument: Argument, next: Option<Argument>): Option<string> {
    if argument == LABEL && next.Some? && next.value.Unicode? then Some(next.value.text) else None
  }

  /** The last label given. */
  function LastLabel(grammar: Grammar, arguments: seq<Argument>): Option<string>
    decreases |arguments|
  {
    if |arguments| == 0 then None
    else
      var width := SourceWidth(grammar, arguments[0]);
      OrElse(if width <= |arguments| then LastLabel(grammar, arguments[width..]) else None,
             LabelIn(arguments[0], NextOf(arguments)))
  }

  function InputIn(argument: Argument): seq<Argument> {
    if IsInput(argument) then [argument] else []
  }

  /** The inputs among the arguments, in order. */
  function InputsOf(grammar: Grammar, arguments: seq<Argument>): seq<Argument>
    decreases |arguments|
  {
    if |arguments| == 0 then []
    else
      var width := SourceWidth(grammar, arguments[0]);
      InputIn(arguments[0]) + (if width <= |arguments| then InputsOf(grammar, arguments[width..]) else [])
  }

  /** An argument a command takes: an input where one is still expected, a label, or one of the
      command's options with a value of its kind. */
  predicate IsExpected(grammar: Grammar, argument: Argument, next: Option<Argument>, inputs: nat) {
    if IsInput(argument) then grammar.FolderGrammar? ==> inputs == 0
    else if argument == LABEL then next.Some? && next.value.Unicode?
    else MeaningIn(grammar, argument).Some? && CliValue(MeaningIn(grammar, argument).value, next).Some?
  }

  predicate AreExpected(grammar: Grammar, arguments: seq<Argument>, inputs: nat)
    decreases |arguments|
  {
    |arguments| == 0
    || (&& IsExpected(grammar, arguments[0], NextOf(arguments), inputs)
        && SourceWidth(grammar, arguments[0]) <= |arguments|
        && AreExpected(grammar, arguments[SourceWidth(grammar, arguments[0])..], inputs + |InputIn(arguments[0])|))
  }

  /** The value of a setting while parsing. */
  function ReadSource(state: SourceState, slot: Slot): Option<Value> {
    match SectionOf(slot)
    case ScanSection => ReadScan(state.scan, slot)
    case LimitSection => ReadLimits(state.limits, slot)
    case AlbumSection => ReadAlbums(state.albums, slot)
    case PicasaSection => ReadFlags(state.flags, slot)
    case _ => None
  }

  // ---------------------------------------------------------------- the tables and the parsers

  lemma ScanTableExactly(option: string)
    ensures ScanTable(option) == if InScan(option) then Some(ScanMeaning(option)) else None
  {
  }

  lemma LimitTableExactly(option: string)
    ensures LimitTable(option) == if option in LIMITS then Some(LimitMeaning(option)) else None
  {
  }

  lemma AlbumTableExactly(option: string)
    ensures AlbumTable(option) == if option in ALBUM_OPTIONS then Some(AlbumMeaning(option)) else None
  {
  }

  lemma FlagTableExactly(option: string)
    ensures FlagTable(option) == if option in PICASA_FLAGS then Some(PicasaMeaning(option)) else None
  {
  }

  lemma OptionsAreDashed(option: string)
    ensures ScanTable(option).Some? || LimitTable(option).Some? || AlbumTable(option).Some? || FlagTable(option).Some?
            ==> |option| > 0 && option[0] == '-' && option != "--label"
  {
  }

  // ---------------------------------------------------------------- the options of apply

  function ProductionTable(option: string): Option<Meaning> {
    match option
    case "--authorize-production-read" => Some(ByName(ProductionRead, true))
    case "--authorize-production-write" => Some(ByName(ProductionWrite, true))
    case "--confirm-plan-sha256" => Some(ByValue(PlanSha256))
    case "--expected-operations" => Some(ByValue(ExpectedOperations))
    case "--backup-reference" => Some(ByValue(BackupReference))
    case _ => None
  }

  function ExecutionTable(option: string): Option<Meaning> {
    match option
    case "--verification-buffer-bytes" => Some(ByValue(VerificationBufferBytes))
    case "--concurrency" => Some(ByValue(Concurrency))
    case "--max-attempts-per-operation" => Some(ByValue(MaxAttempts))
    case "--max-retries-per-run" => Some(ByValue(MaxRetries))
    case "--retry-base-delay-ms" => Some(ByValue(RetryBaseDelay))
    case "--retry-delay-cap-ms" => Some(ByValue(RetryDelayCap))
    case _ => None
  }

  function OwnTable(option: string): Option<Meaning> {
    match option
    case "--plan" => Some(ByValue(Plan))
    case "--checkpoint" => Some(ByValue(Checkpoint))
    case "--server" => Some(ByValue(ServerSlot))
    case "--ca-certificate" => Some(ByValue(CaCertificate))
    case "--dry-run" => Some(ByName(DryRun, true))
    case "--no-dry-run" => Some(ByName(DryRun, false))
    case _ => None
  }

  function ApplyTable(option: string): Option<Meaning> {
    OrElse(ScanTable(option), OrElse(LimitTable(option), OrElse(AlbumTable(option), OrElse(FlagTable(option),
      OrElse(ProductionTable(option), OrElse(ExecutionTable(option), OwnTable(option)))))))
  }

  lemma ProductionTableExactly(option: string)
    ensures ProductionTable(option) == if InProduction(option) then Some(ProductionMeaning(option)) else None
  {
  }

  lemma ExecutionTableExactly(option: string)
    ensures ExecutionTable(option) == if option in EXECUTION then Some(ExecutionMeaning(option)) else None
  {
  }

  lemma OwnTableExactly(option: string)
    ensures OwnTable(option) == OwnMeaning(option)
    ensures OwnTable(option).Some? ==> InOwn(option)
  {
  }

  /** Each option of `apply` is for the setting its name says, and no other option is for a setting. */
  lemma ApplyOptionsByName(option: string)
    ensures MeaningOf(option) == ApplyTable(option)
  {
    ScanTableExactly(option);
    LimitTableExactly(option);
    AlbumTableExactly(option);
    FlagTableExactly(option);
    ProductionTableExactly(option);
    ExecutionTableExactly(option);
    OwnTableExactly(option);
    hide ScanTable, LimitTable, AlbumTable, FlagTable, ProductionTable, ExecutionTable, OwnTable, ScanMeaning,
         LimitMeaning, AlbumMeaning, PicasaMeaning, ProductionMeaning, ExecutionMeaning, OwnMeaning;
    if InProduction(option) {
      ProductionOnly(option);
    } else if option in LIMITS {
      LimitsOnly(option);
    } else if option in ALBUM_OPTIONS {
      AlbumsOnly(option);
    } else if option in PICASA_FLAGS {
      PicasaOnly(option);
    }
  }

  // ---------------------------------------------------------------- one round

  /** What one round does to the settings, the label and the inputs. */
  ghost predicate RoundSets(grammar: Grammar, argument: Argument, next: Option<Argument>, before: SourceState,
                            after: SourceState)
  {
    && (forall slot :: ReadSource(after, slot) == OrElse(GivenIn(grammar, argument, next, slot), ReadSource(before, slot)))
    && Some(after.sourceLabel) == OrElse(LabelIn(argument, next), Some(before.sourceLabel))
    && after.inputs == before.inputs + InputIn(argument)
  }

  /** A round succeeds exactly on an expected argument, takes up its width and sets what it is for. */
  ghost predicate RoundIsRight(grammar: Grammar, argument: Argument, next: Option<Argument>, state: SourceState) {
    var updated := SourceStep(grammar, argument, next, state);
    && (updated.Ok? <==> IsExpected(grammar, argument, next, |state.inputs|))
    && (updated.Ok? ==>
          && Width(grammar, argument) == SourceWidth(grammar, argument)
          && (SourceWidth(grammar, argument) == 2 ==> next.Some?)
          && RoundSets(grammar, argument, next, state, updated.value))
  }

  /** The round's setting is in one section, and that section is set as the option says. */
  lemma SectionSets(grammar: Grammar, argument: Argument, next: Option<Argument>, before: SourceState, after: SourceState,
                    meaning: Meaning, section: Section)
    requires MeaningIn(grammar, argument) == Some(meaning) && SectionOf(meaning.slot) == section
    requires !IsInput(argument) && argument != LABEL
    requires after.sourceLabel == before.sourceLabel && after.inputs == before.inputs
    requires section.ScanSection? || after.scan == before.scan
    requires section.LimitSection? || after.limits == before.limits
    requires section.AlbumSection? || after.albums == before.albums
    requires section.PicasaSection? || after.flags == before.flags
    requires forall slot :: SectionOf(slot) == section ==>
               ReadSource(after, slot) == OrElse(GivenBy(meaning, next, slot), ReadSource(before, slot))
    ensures RoundSets(grammar, argument, next, before, after)
  {
    hide CliValue, MeaningIn, IsInput, ReadScan, ReadLimits, ReadAlbums, ReadFlags;
    forall slot ensures ReadSource(after, slot) == OrElse(GivenIn(grammar, argument, next, slot), ReadSource(before, slot)) {
      if SectionOf(slot) != section {
        assert GivenBy(meaning, next, slot) == None;
      }
    }
    assert before.inputs + [] == before.inputs;
  }

  lemma FlagsAreNarrow(grammar: Grammar, option: string)
    requires option in SCAN_FLAGS || option in PICASA_FLAGS
    ensures option !in SCAN_NUMBERS && option != "--label" && Width(grammar, Unicode(option)) == 1
  {
  }

  lemma ScanStep(grammar: Grammar, option: string, next: Option<Argument>, state: SourceState)
    requires InScan(option)
    ensures var step, handled := SourceStep(grammar, Unicode(option), next, state), ScanOption(option, next, state.scan);
      && (step.Ok? <==> handled.Ok?)
      && (step.Ok? ==>
            && handled.value.Some? && handled.value.value.width == Width(grammar, Unicode(option))
            && step.value == state.(scan := handled.value.value.config))
  {
    hide NumberValue, SetScanNumber, Positional;
    if option in SCAN_FLAGS {
      FlagsAreNarrow(grammar, option);
    }
  }

  lemma ScanRound(grammar: Grammar, option: string, next: Option<Argument>, state: SourceState)
    requires InScan(option)
    ensures RoundIsRight(grammar, Unicode(option), next, state)
  {
    ScanStep(grammar, option, next, state);
    ScanAccepts(option, next, state.scan);
    ScanTableExactly(option);
    OptionsAreDashed(option);
    var step := SourceStep(grammar, Unicode(option), next, state);
    if step.Ok? {
      var handled := ScanOption(option, next, state.scan).value.value;
      ScanSets(option, next, state.scan, handled, ScanMeaning(option).slot);
      forall slot | SectionOf(slot).ScanSection?
        ensures ReadSource(step.value, slot) == OrElse(GivenBy(ScanMeaning(option), next, slot), ReadSource(state, slot))
      {
        ScanSets(option, next, state.scan, handled, slot);
      }
      hide SourceStep, ScanOption, ScanMeaning, ScanTable, CliValue, ReadScan, GivenBy;
      SectionSets(grammar, Unicode(option), next, state, step.value, ScanMeaning(option), ScanSection);
    }
    hide SourceStep, ScanOption, ScanMeaning, ScanTable, CliValue, RoundSets, ReadScan;
  }

  lemma LimitStep(grammar: Grammar, option: string, next: Option<Argument>, state: SourceState)
    requires option in LIMITS && !grammar.FolderGrammar?
    ensures var step, handled := SourceStep(grammar, Unicode(option), next, state), TakeoutOption(option, next, state.limits);
      && (step.Ok? <==> handled.Ok?)
      && (step.Ok? ==>
            && handled.value.Some? && handled.value.value.width == Width(grammar, Unicode(option))
            && step.value == state.(limits := handled.value.value.config))
  {
    hide NumberValue, SetLimit, Positional, SetScanNumber;
    assert option !in SCAN_NUMBERS && option !in SCAN_FLAGS && option != "--label";
  }

  lemma LimitRound(grammar: Grammar, option: string, next: Option<Argument>, state: SourceState)
    requires option in LIMITS && !grammar.FolderGrammar?
    ensures RoundIsRight(grammar, Unicode(option), next, state)
  {
    LimitStep(grammar, option, next, state);
    LimitsAccept(option, next, state.limits);
    LimitTableExactly(option);
    ScanTableExactly(option);
    assert !InScan(option);
    OptionsAreDashed(option);
    var step := SourceStep(grammar, Unicode(option), next, state);
    if step.Ok? {
      var handled := TakeoutOption(option, next, state.limits).value.value;
      LimitsSet(option, next, state.limits, handled, LimitMeaning(option).slot);
      forall slot | SectionOf(slot).LimitSection?
        ensures ReadSource(step.value, slot) == OrElse(GivenBy(LimitMeaning(option), next, slot), ReadSource(state, slot))
      {
        LimitsSet(option, next, state.limits, handled, slot);
      }
      hide SourceStep, TakeoutOption, LimitMeaning, LimitTable, ScanTable, CliValue, ReadLimits, GivenBy;
      SectionSets(grammar, Unicode(option), next, state, step.value, LimitMeaning(option), LimitSection);
    }
    hide SourceStep, TakeoutOption, LimitMeaning, LimitTable, ScanTable, CliValue, RoundSets, ReadLimits;
  }

  lemma AlbumStep(grammar: Grammar, option: string, next: Option<Argument>, state: SourceState)
    requires option in ALBUM_OPTIONS && (grammar.AppleGrammar? || grammar.PicasaGrammar?)
    ensures var step, handled := SourceStep(grammar, Unicode(option), next, state), AppleOption(option, next, state.albums);
      && (step.Ok? <==> handled.Ok?)
      && (step.Ok? ==>
            && handled.value.Some? && handled.value.value.width == Width(grammar, Unicode(option))
            && step.value == state.(albums := handled.value.value.config))
  {
    hide NumberValue, SetLimit, Positional, SetScanNumber, ModeValue, StringValue;
    assert option !in SCAN_NUMBERS && option !in SCAN_FLAGS && option != "--label" && option !in LIMITS;
  }

  lemma AlbumRound(grammar: Grammar, option: string, next: Option<Argument>, state: SourceState)
    requires option in ALBUM_OPTIONS && (grammar.AppleGrammar? || grammar.PicasaGrammar?)
    ensures RoundIsRight(grammar, Unicode(option), next, state)
  {
    AlbumStep(grammar, option, next, state);
    AlbumsAccept(option, next, state.albums);
    AlbumTableExactly(option);
    LimitTableExactly(option);
    ScanTableExactly(option);
    assert !InScan(option) && option !in LIMITS;
    OptionsAreDashed(option);
    var step := SourceStep(grammar, Unicode(option), next, state);
    if step.Ok? {
      var handled := AppleOption(option, next, state.albums).value.value;
      AlbumsSet(option, next, state.albums, handled, AlbumMeaning(option).slot);
      forall slot | SectionOf(slot).AlbumSection?
        ensures ReadSource(step.value, slot) == OrElse(GivenBy(AlbumMeaning(option), next, slot), ReadSource(state, slot))
      {
        AlbumsSet(option, next, state.albums, handled, slot);
      }
      hide SourceStep, AppleOption, AlbumMeaning, AlbumTable, LimitTable, ScanTable, CliValue, ReadAlbums, GivenBy;
      SectionSets(grammar, Unicode(option), next, state, step.value, AlbumMeaning(option), AlbumSection);
    }
    hide SourceStep, AppleOption, AlbumMeaning, AlbumTable, LimitTable, ScanTable, CliValue, RoundSets, ReadAlbums;
  }

  lemma FlagStep(grammar: Grammar, option: string, next: Option<Argument>, state: SourceState)
    requires option in PICASA_FLAGS && grammar.PicasaGrammar?
    ensures PicasaOption(option, state.flags).Some? && PicasaOption(option, state.flags).value.width == 1
    ensures SourceStep(grammar, Unicode(option), next, state)
         == Ok(state.(flags := PicasaOption(option, state.flags).value.config))
  {
    hide NumberValue, SetLimit, Positional, SetScanNumber, ModeValue, StringValue, SetPicasaFlag;
    assert option !in SCAN_NUMBERS && option !in SCAN_FLAGS && option != "--label" && option !in LIMITS
           && option !in ALBUM_OPTIONS;
  }

  lemma FlagRound(option: string, next: Option<Argument>, state: SourceState)
    requires option in PICASA_FLAGS
    ensures RoundIsRight(PicasaGrammar, Unicode(option), next, state)
  {
    FlagStep(PicasaGrammar, option, next, state);
    FlagsAreNarrow(PicasaGrammar, option);
    FlagTableExactly(option);
    AlbumTableExactly(option);
    LimitTableExactly(option);
    ScanTableExactly(option);
    assert !InScan(option) && option !in LIMITS && option !in ALBUM_OPTIONS;
    OptionsAreDashed(option);
    FlagsAccept(option, next);
    var step := SourceStep(PicasaGrammar, Unicode(option), next, state);
    var handled := PicasaOption(option, state.flags).value;
    FlagsSet(option, next, state.flags, handled, PicasaMeaning(option).slot);
    forall slot | SectionOf(slot).PicasaSection?
      ensures ReadSource(step.value, slot) == OrElse(GivenBy(PicasaMeaning(option), next, slot), ReadSource(state, slot))
    {
      FlagsSet(option, next, state.flags, handled, slot);
    }
    hide SourceStep, PicasaOption, PicasaMeaning, FlagTable, AlbumTable, LimitTable, ScanTable, CliValue, ReadFlags,
         GivenBy, Width;
    SectionSets(PicasaGrammar, Unicode(option), next, state, step.value, PicasaMeaning(option), PicasaSection);
    hide RoundSets;
  }

  lemma LabelRound(grammar: Grammar, next: Option<Argument>, state: SourceState)
    ensures RoundIsRight(grammar, LABEL, next, state)
  {
    hide ReadScan, ReadLimits, ReadAlbums, ReadFlags, CliValue;
    ScanTableExactly("--label");
    LimitTableExactly("--label");
    AlbumTableExactly("--label");
    FlagTableExactly("--label");
    assert |"--label"| == 7;
    assert state.inputs + [] == state.inputs;
  }

  /** An option no table of the command has. */
  lemma UnknownRound(grammar: Grammar, option: string, next: Option<Argument>, state: SourceState)
    requires |option| > 0 && option[0] == '-' && option != "--label" && SourceMeaning(grammar, option).None?
    ensures RoundIsRight(grammar, Unicode(option), next, state)
  {
    ScanTableExactly(option);
    LimitTableExactly(option);
    AlbumTableExactly(option);
    FlagTableExactly(option);
    hide ScanTable, LimitTable, AlbumTable, FlagTable, ScanMeaning, LimitMeaning, AlbumMeaning, PicasaMeaning, CliValue;
  }

  lemma InputRound(grammar: Grammar, argument: Argument, next: Option<Argument>, state: SourceState)
    requires IsInput(argument)
    ensures RoundIsRight(grammar, argument, next, state)
  {
    if argument.Unicode? {
      OptionsAreDashed(argument.text);
      ScanTableExactly(argument.text);
      LimitTableExactly(argument.text);
      AlbumTableExactly(argument.text);
      FlagTableExactly(argument.text);
      assert argument.text != "--label" by {
        assert "--label"[0] == '-';
      }
    }
    hide ScanTable, LimitTable, AlbumTable, FlagTable, ScanMeaning, LimitMeaning, AlbumMeaning, PicasaMeaning, CliValue;
    hide ReadScan, ReadLimits, ReadAlbums, ReadFlags;
  }

  lemma MeaningIsOneOf(grammar: Grammar, option: string)
    ensures SourceMeaning(grammar, option).Some? <==>
            || InScan(option)
            || (!grammar.FolderGrammar? && option in LIMITS)
            || ((grammar.AppleGrammar? || grammar.PicasaGrammar?) && option in ALBUM_OPTIONS)
            || (grammar.PicasaGrammar? && option in PICASA_FLAGS)
  {
    ScanTableExactly(option);
    LimitTableExactly(option);
    AlbumTableExactly(option);
    FlagTableExactly(option);
    hide ScanTable, LimitTable, AlbumTable, FlagTable, ScanMeaning, LimitMeaning, AlbumMeaning, PicasaMeaning, InScan;
  }

  /** Every round of a source parser does what its argument says. */
  lemma EveryRoundIsRight(grammar: Grammar, argument: Argument, next: Option<Argument>, state: SourceState)
    ensures RoundIsRight(grammar, argument, next, state)
  {
    hide RoundIsRight, InScan, SourceMeaning;
    if IsInput(argument) {
      InputRound(grammar, argument, next, state);
    } else if argument == LABEL {
      LabelRound(grammar, next, state);
    } else {
      var option := argument.text;
      MeaningIsOneOf(grammar, option);
      if InScan(option) {
        ScanRound(grammar, option, next, state);
      } else if !grammar.FolderGrammar? && option in LIMITS {
        LimitRound(grammar, option, next, state);
      } else if (grammar.AppleGrammar? || grammar.PicasaGrammar?) && option in ALBUM_OPTIONS {
        AlbumRound(grammar, option, next, state);
      } else if grammar.PicasaGrammar? && option in PICASA_FLAGS {
        FlagRound(option, next, state);
      } else {
        UnknownRound(grammar, option, next, state);
      }
    }
  }

  // ---------------------------------------------------------------- the whole loop

  /** Each setting is the last value given to it or else the one before, so is the label, and the inputs
      are those before and those given, in order. */
  ghost predicate IsParsed(grammar: Grammar, arguments: seq<Argument>, before: SourceState, after: SourceState) {
    && (forall slot :: ReadSource(after, slot) == OrElse(LastIn(grammar, arguments, slot), ReadSource(before, slot)))
    && Some(after.sourceLabel) == OrElse(LastLabel(grammar, arguments), Some(before.sourceLabel))
    && after.inputs == before.inputs + InputsOf(grammar, arguments)
  }

  lemma RoundThenRest(grammar: Grammar, arguments: seq<Argument>, before: SourceState, middle: SourceState,
                      after: SourceState)
    requires |arguments| > 0 && SourceWidth(grammar, arguments[0]) <= |arguments|
    requires RoundSets(grammar, arguments[0], NextOf(arguments), before, middle)
    requires IsParsed(grammar, arguments[SourceWidth(grammar, arguments[0])..], middle, after)
    ensures IsParsed(grammar, arguments, before, after)
  {
    hide SourceWidth, GivenIn, LabelIn, InputIn, ReadSource, NextOf;
    Associative(before.inputs, InputIn(arguments[0]), InputsOf(grammar, arguments[SourceWidth(grammar, arguments[0])..]));
  }

  lemma RoundIsInside(grammar: Grammar, arguments: seq<Argument>, state: SourceState)
    requires |arguments| > 0
    ensures var updated := SourceStep(grammar, arguments[0], NextOf(arguments), state);
      && (updated.Ok? <==> IsExpected(grammar, arguments[0], NextOf(arguments), |state.inputs|))
      && (updated.Ok? ==>
            && Width(grammar, arguments[0]) == SourceWidth(grammar, arguments[0]) <= |arguments|
            && RoundSets(grammar, arguments[0], NextOf(arguments), state, updated.value)
            && |updated.value.inputs| == |state.inputs| + |InputIn(arguments[0])|)
  {
    EveryRoundIsRight(grammar, arguments[0], NextOf(arguments), state);
    hide SourceStep, Width, SourceWidth, IsExpected, GivenIn, LabelIn, InputIn, ReadSource;
  }

  /** A source parser succeeds exactly on expected arguments. */
  lemma {:induction false} ScanAcceptsExactlyTheExpected(grammar: Grammar, arguments: seq<Argument>, state: SourceState)
    ensures Scan(grammar, arguments, state).Ok? <==> AreExpected(grammar, arguments, |state.inputs|)
    decreases |arguments|
  {
    hide SourceStep, Width, SourceWidth, IsExpected, InputIn, RoundSets;
    if |arguments| > 0 {
      RoundIsInside(grammar, arguments, state);
      var updated := SourceStep(grammar, arguments[0], NextOf(arguments), state);
      if updated.Ok? {
        ScanAcceptsExactlyTheExpected(grammar, arguments[SourceWidth(grammar, arguments[0])..], updated.value);
      }
    }
  }

  /** For every successful scan each setting the command admits has the last value given to it, and every
      other setting keeps its own. */
  lemma {:induction false} LastSourceOptionWins(grammar: Grammar, arguments: seq<Argument>, state: SourceState)
    requires Scan(grammar, arguments, state).Ok?
    ensures IsParsed(grammar, arguments, state, Scan(grammar, arguments, state).value)
    decreases |arguments|
  {
    hide SourceStep, Width, SourceWidth, IsExpected, RoundSets, IsParsed;
    if |arguments| > 0 {
      RoundIsInside(grammar, arguments, state);
      var updated := SourceStep(grammar, arguments[0], NextOf(arguments), state).value;
      LastSourceOptionWins(grammar, arguments[SourceWidth(grammar, arguments[0])..], updated);
      RoundThenRest(grammar, arguments, state, updated, Scan(grammar, arguments, state).value);
    } else {
      NothingIsParsed(grammar, state);
    }
  }

  lemma NothingIsParsed(grammar: Grammar, state: SourceState)
    ensures IsParsed(grammar, [], state, state)
  {
  }

  // ---------------------------------------------------------------- the server options

  /** How many arguments a server option takes up, or none. */
  function ServerSpan(argument: Argument): nat {
    if argument == Unicode("--server") || argument == Unicode("--ca-certificate") then 2
    else if argument == Unicode("--authorize-production-read") then 1
    else 0
  }

  /** A server option with its value, which is Unicode for an address. */
  predicate IsServerGroup(group: seq<Argument>) {
    |group| > 0 && |group| == ServerSpan(group[0]) && (group[0] == Unicode("--server") ==> group[1].Unicode?)
  }

  function Front(arguments: seq<Argument>, width: nat): seq<Argument> {
    if width <= |arguments| then arguments[..width] else arguments
  }

  function Back(arguments: seq<Argument>, width: nat): (rest: seq<Argument>)
    requires |arguments| > 0 && width > 0
    ensures |rest| < |arguments|
  {
    if width <= |arguments| then arguments[width..] else []
  }

  /** One pass: the arguments left to the source, and the server options among them. */
  function SourcePart(grammar: Grammar, arguments: seq<Argument>): seq<Argument>
    decreases |arguments|
  {
    if |arguments| == 0 then []
    else if ServerSpan(arguments[0]) > 0 then SourcePart(grammar, Back(arguments, ServerSpan(arguments[0])))
    else
      var width := SourceWidth(grammar, arguments[0]);
      Front(arguments, width) + SourcePart(grammar, Back(arguments, width))
  }

  function ServerPart(grammar: Grammar, arguments: seq<Argument>): seq<seq<Argument>>
    decreases |arguments|
  {
    if |arguments| == 0 then []
    else if ServerSpan(arguments[0]) > 0 then
      [Front(arguments, ServerSpan(arguments[0]))] + ServerPart(grammar, Back(arguments, ServerSpan(arguments[0])))
    else ServerPart(grammar, Back(arguments, SourceWidth(grammar, arguments[0])))
  }

  /** Strip first: the same, with every argument looked at on its own. */
  function SourceLeft(arguments: seq<Argument>): seq<Argument>
    decreases |arguments|
  {
    if |arguments| == 0 then []
    else if ServerSpan(arguments[0]) > 0 then SourceLeft(Back(arguments, ServerSpan(arguments[0])))
    else [arguments[0]] + SourceLeft(arguments[1..])
  }

  function ServerTaken(arguments: seq<Argument>): seq<seq<Argument>>
    decreases |arguments|
  {
    if |arguments| == 0 then []
    else if ServerSpan(arguments[0]) > 0 then
      [Front(arguments, ServerSpan(arguments[0]))] + ServerTaken(Back(arguments, ServerSpan(arguments[0])))
    else ServerTaken(arguments[1..])
  }

  predicate AreServerGroups(groups: seq<seq<Argument>>) {
    forall i :: 0 <= i < |groups| ==> IsServerGroup(groups[i])
  }

  /** The last address and the last certificate, or else those before; reading is authorized if it was or
      is asked for. */
  ghost predicate IsServed(groups: seq<seq<Argument>>, before: ServerSettings, after: ServerSettings) {
    var server, certificate := LastValue(groups, "--server"), LastValue(groups, "--ca-certificate");
    && (server.None? ==> after.server == before.server)
    && (server.Some? ==> server.value.Unicode? && after.server == Some(server.value.text))
    && after.caCertificate == OrElse(certificate, before.caCertificate)
    && (after.productionRead <==> before.productionRead || [Unicode("--authorize-production-read")] in groups)
  }

  lemma ServerSpanExactly(argument: Argument)
    ensures IsServerFlag(argument) <==> ServerSpan(argument) > 0
    ensures IsServerFlag(argument) ==> ServerWidth(argument) == ServerSpan(argument)
  {
  }

  lemma WidthExactly(grammar: Grammar, argument: Argument)
    ensures Width(grammar, argument) == SourceWidth(grammar, argument)
  {
    if argument.Unicode? {
      var option := argument.text;
      ScanTableExactly(option);
      LimitTableExactly(option);
      AlbumTableExactly(option);
      FlagTableExactly(option);
      if option in SCAN_FLAGS || option in PICASA_FLAGS {
        FlagsAreNarrow(grammar, option);
        OptionsAreDashed(option);
      }
      hide ScanTable, LimitTable, AlbumTable, FlagTable;
    }
  }

  /** A server option's round succeeds exactly on a complete group. */
  lemma ServerRound(arguments: seq<Argument>, settings: ServerSettings)
    requires |arguments| > 0 && ServerSpan(arguments[0]) > 0
    ensures IsServerFlag(arguments[0])
    ensures var group := Front(arguments, ServerSpan(arguments[0]));
      && (ServerStep(arguments[0], NextOf(arguments), settings).Ok? <==> IsServerGroup(group))
      && (IsServerGroup(group) ==>
            && ServerSpan(arguments[0]) <= |arguments| && OfServer(group) && |group| == ServerWidth(group[0])
            && ServerStep(group[0], NextOf(group), settings) == ServerStep(arguments[0], NextOf(arguments), settings))
  {
    ServerSpanExactly(arguments[0]);
    var group := Front(arguments, ServerSpan(arguments[0]));
    assert |"--server"| == 8 && |"--ca-certificate"| == 16 && |"--authorize-production-read"| == 27;
  }

  lemma OneMoreGroup(group: seq<Argument>, groups: seq<seq<Argument>>, settings: ServerSettings)
    requires OfServer(group)
    ensures var step := ServerStep(group[0], NextOf(group), settings);
      ApplyServer([group] + groups, settings) == if step.Ok? then ApplyServer(groups, step.value) else Err(step.error)
    ensures AreServerGroups([group] + groups) <==> IsServerGroup(group) && AreServerGroups(groups)
  {
    hide ServerStep, IsServerFlag, IsServerGroup;
    var all := [group] + groups;
    assert all[0] == group && all[1..] == groups;
    if AreServerGroups(all) {
      forall i | 0 <= i < |groups| ensures IsServerGroup(groups[i]) {
        assert all[i + 1] == groups[i];
      }
    }
  }

  lemma GroupIsServer(group: seq<Argument>)
    requires IsServerGroup(group)
    ensures OfServer(group) && |group| == ServerWidth(group[0])
  {
    hide IsServerFlag, ServerWidth;
    ServerSpanExactly(group[0]);
  }

  /** Server options are applied as their last values. */
  lemma GroupsAreServed(groups: seq<seq<Argument>>, settings: ServerSettings)
    requires AreServerGroups(groups) && ApplyServer(groups, settings).Ok?
    ensures IsServed(groups, settings, ApplyServer(groups, settings).value)
  {
    hide IsServerGroup, IsServerFlag, ServerWidth, ApplyServer;
    forall i | 0 <= i < |groups| ensures OfServer(groups[i]) && |groups[i]| == ServerWidth(groups[i][0]) {
      GroupIsServer(groups[i]);
    }
    LastServerOptionWins(groups, settings);
  }

  lemma SourceFront(grammar: Grammar, arguments: seq<Argument>, tail: seq<Argument>, state: SourceState)
    requires |arguments| > 0
    requires SourceWidth(grammar, arguments[0]) > |arguments| ==> tail == []
    ensures var width := SourceWidth(grammar, arguments[0]);
      var updated := SourceStep(grammar, arguments[0], NextOf(arguments), state);
      var scanned := Scan(grammar, Front(arguments, width) + tail, state);
      && (updated.Err? ==> scanned.Err?)
      && (updated.Ok? ==> width <= |arguments| && scanned == Scan(grammar, tail, updated.value))
  {
    var width := SourceWidth(grammar, arguments[0]);
    WidthExactly(grammar, arguments[0]);
    RoundIsInside(grammar, arguments, state);
    hide SourceStep, Width, SourceWidth, Scan, IsExpected, RoundSets;
    if width <= |arguments| {
      SourceOptions.ScanStep(grammar, arguments, width, tail, state);
      if width == 1 {
        NarrowStepsAreLocal(grammar, arguments[0], NextOf(arguments), NextOf([arguments[0]] + tail), state);
      }
    } else {
      assert arguments + [] == arguments;
      ScanFails(grammar, arguments, state);
    }
  }

  lemma ScanFails(grammar: Grammar, arguments: seq<Argument>, state: SourceState)
    requires |arguments| > 0 && SourceStep(grammar, arguments[0], NextOf(arguments), state).Err?
    ensures Scan(grammar, arguments, state).Err?
  {
    hide SourceStep, Width;
  }

  lemma OnePassUnfolds(grammar: Grammar, arguments: seq<Argument>, state: SourceState, settings: ServerSettings)
    requires |arguments| > 0
    ensures ServerSpan(arguments[0]) > 0 ==>
      && IsServerFlag(arguments[0])
      && var updated := ServerStep(arguments[0], NextOf(arguments), settings);
      && (updated.Err? ==> OnePass(grammar, arguments, state, settings).Err?)
      && (updated.Ok? ==> OnePass(grammar, arguments, state, settings)
                          == OnePass(grammar, Back(arguments, ServerSpan(arguments[0])), state, updated.value))
    ensures ServerSpan(arguments[0]) == 0 ==>
      var updated := SourceStep(grammar, arguments[0], NextOf(arguments), state);
      && (updated.Err? ==> OnePass(grammar, arguments, state, settings).Err?)
      && (updated.Ok? ==> OnePass(grammar, arguments, state, settings)
                          == OnePass(grammar, Back(arguments, SourceWidth(grammar, arguments[0])), updated.value, settings))
  {
    ServerSpanExactly(arguments[0]);
    WidthExactly(grammar, arguments[0]);
    StepsStayInside(grammar, arguments, state, settings);
    hide SourceStep, ServerStep, Width, SourceWidth, IsServerFlag, ServerWidth, ServerSpan;
  }

  /** One pass is a scan of the source part and the server part's options. */
  lemma {:induction false} OnePassIsBoth(grammar: Grammar, arguments: seq<Argument>, state: SourceState,
                                         settings: ServerSettings)
    ensures var run := OnePass(grammar, arguments, state, settings);
      var scanned := Scan(grammar, SourcePart(grammar, arguments), state);
      var groups := ServerPart(grammar, arguments);
      && (run.Ok? <==> scanned.Ok? && AreServerGroups(groups))
      && (run.Ok? ==> scanned == Ok(run.value.state) && ApplyServer(groups, settings) == Ok(run.value.settings))
    decreases |arguments|
  {
    hide SourceStep, ServerStep, SourceWidth, IsServerFlag, ServerSpan, Scan, OnePass, Back, Front, AreServerGroups,
         ApplyServer, OfServer, IsServerGroup;
    if |arguments| == 0 {
      ScanNothing(grammar, state);
      OnePassNothing(grammar, state, settings);
    } else {
      OnePassUnfolds(grammar, arguments, state, settings);
      var span := ServerSpan(arguments[0]);
      if span > 0 {
        ServerRound(arguments, settings);
        var group, rest := Front(arguments, span), Back(arguments, span);
        var updated := ServerStep(arguments[0], NextOf(arguments), settings);
        if updated.Ok? {
          OnePassIsBoth(grammar, rest, state, updated.value);
          OneMoreGroup(group, ServerPart(grammar, rest), settings);
        } else {
          FirstGroupIsBad(group, ServerPart(grammar, rest));
        }
      } else {
        var rest := Back(arguments, SourceWidth(grammar, arguments[0]));
        BackIsNothing(arguments, SourceWidth(grammar, arguments[0]));
        SourceFront(grammar, arguments, SourcePart(grammar, rest), state);
        var updated := SourceStep(grammar, arguments[0], NextOf(arguments), state);
        if updated.Ok? {
          OnePassIsBoth(grammar, rest, updated.value, settings);
        }
      }
    }
  }

  lemma OnePassNothing(grammar: Grammar, state: SourceState, settings: ServerSettings)
    ensures OnePass(grammar, [], state, settings) == Ok(Scanned(state, settings))
    ensures AreServerGroups([]) && ApplyServer([], settings) == Ok(settings)
  {
  }

  lemma FirstGroupIsBad(group: seq<Argument>, groups: seq<seq<Argument>>)
    requires !IsServerGroup(group)
    ensures !AreServerGroups([group] + groups)
  {
    hide IsServerGroup;
    assert ([group] + groups)[0] == group;
  }

  lemma BackIsNothing(arguments: seq<Argument>, width: nat)
    requires |arguments| > 0 && width > 0
    ensures width > |arguments| ==> Back(arguments, width) == []
  {
  }

  /** One pass succeeds exactly when its source part is expected and its server options are complete; the
      settings, the label and the inputs are then the last ones given, or those it started with. */
  lemma OnePassExactly(grammar: Grammar, arguments: seq<Argument>, state: SourceState, settings: ServerSettings)
    ensures var run := OnePass(grammar, arguments, state, settings);
      var source, server := SourcePart(grammar, arguments), ServerPart(grammar, arguments);
      && (run.Ok? <==> AreExpected(grammar, source, |state.inputs|) && AreServerGroups(server))
      && (run.Ok? ==> IsParsed(grammar, source, state, run.value.state) && IsServed(server, settings, run.value.settings))
  {
    hide OnePass, SourcePart, ServerPart, AreExpected, AreServerGroups, IsParsed, IsServed, Scan;
    OnePassIsBoth(grammar, arguments, state, settings);
    ScanAcceptsExactlyTheExpected(grammar, SourcePart(grammar, arguments), state);
    if OnePass(grammar, arguments, state, settings).Ok? {
      LastSourceOptionWins(grammar, SourcePart(grammar, arguments), state);
      GroupsAreServed(ServerPart(grammar, arguments), settings);
    }
  }

  lemma StripUnfolds(arguments: seq<Argument>, settings: ServerSettings)
    requires |arguments| > 0
    ensures ServerSpan(arguments[0]) > 0 ==>
      && IsServerFlag(arguments[0])
      && var updated := ServerStep(arguments[0], NextOf(arguments), settings);
      && (updated.Err? ==> Strip(arguments, settings).Err?)
      && (updated.Ok? ==> Strip(arguments, settings) == Strip(Back(arguments, ServerSpan(arguments[0])), updated.value))
    ensures ServerSpan(arguments[0]) == 0 ==>
      var rest := Strip(arguments[1..], settings);
      && (rest.Err? ==> Strip(arguments, settings).Err?)
      && (rest.Ok? ==> Strip(arguments, settings)
                       == Ok(Stripped(rest.value.settings, [arguments[0]] + rest.value.rest)))
  {
    ServerSpanExactly(arguments[0]);
    if ServerSpan(arguments[0]) > 0 {
      StepsStayInside(FolderGrammar, arguments, ANY_STATE, settings);
    }
    hide ServerStep, IsServerFlag, ServerWidth, ServerSpan;
  }

  const ANY_STATE := SourceState("", [], ScanConfig(0, 0, 0, 0, false), ArchiveLimits(0, 0, 0, 0),
                                 AlbumConfig(NoAlbums, ""), PicasaFlags(false, false))

  /** Taking the server options out leaves the rest in order, and applies what was taken. */
  lemma {:induction false} StripIsBoth(arguments: seq<Argument>, settings: ServerSettings)
    ensures var run := Strip(arguments, settings);
      var groups := ServerTaken(arguments);
      && (run.Ok? <==> AreServerGroups(groups))
      && (run.Ok? ==> run.value.rest == SourceLeft(arguments)
                      && ApplyServer(groups, settings) == Ok(run.value.settings))
    decreases |arguments|
  {
    hide ServerStep, IsServerFlag, ServerSpan, Strip, Back, Front, AreServerGroups, ApplyServer, OfServer, IsServerGroup;
    if |arguments| == 0 {
      StripNothing(settings);
    } else {
      StripUnfolds(arguments, settings);
      var span := ServerSpan(arguments[0]);
      if span > 0 {
        ServerRound(arguments, settings);
        var group, rest := Front(arguments, span), Back(arguments, span);
        var updated := ServerStep(arguments[0], NextOf(arguments), settings);
        if updated.Ok? {
          StripIsBoth(rest, updated.value);
          OneMoreGroup(group, ServerTaken(rest), settings);
        } else {
          FirstGroupIsBad(group, ServerTaken(rest));
        }
      } else {
        StripIsBoth(arguments[1..], settings);
      }
    }
  }

  lemma StripNothing(settings: ServerSettings)
    ensures Strip([], settings) == Ok(Stripped(settings, []))
    ensures AreServerGroups([]) && ApplyServer([], settings) == Ok(settings)
  {
  }

  /** Strip and scan succeeds exactly when what is left is expected and the server options taken out are
      complete; the settings, the label and the inputs are then the last ones left. */
  lemma StripThenScanExactly(grammar: Grammar, arguments: seq<Argument>, state: SourceState, settings: ServerSettings)
    ensures var run := StripThenScan(grammar, arguments, state, settings);
      var source, server := SourceLeft(arguments), ServerTaken(arguments);
      && (run.Ok? <==> AreExpected(grammar, source, |state.inputs|) && AreServerGroups(server))
      && (run.Ok? ==> IsParsed(grammar, source, state, run.value.state) && IsServed(server, settings, run.value.settings))
  {
    hide Strip, SourceLeft, ServerTaken, AreExpected, AreServerGroups, IsParsed, IsServed, Scan;
    StripIsBoth(arguments, settings);
    ScanAcceptsExactlyTheExpected(grammar, SourceLeft(arguments), state);
    if StripThenScan(grammar, arguments, state, settings).Ok? {
      LastSourceOptionWins(grammar, SourceLeft(arguments), state);
      GroupsAreServed(ServerTaken(arguments), settings);
    }
  }

  // ---------------------------------------------------------------- the request

  /** The arguments a command leaves to its source, and the server options it finds. */
  function SourceOf(grammar: Grammar, arguments: seq<Argument>): seq<Argument> {
    if grammar.FolderGrammar? then SourcePart(grammar, arguments) else SourceLeft(arguments)
  }

  function ServerOf(grammar: Grammar, arguments: seq<Argument>): seq<seq<Argument>> {
    if grammar.FolderGrammar? then ServerPart(grammar, arguments) else ServerTaken(arguments)
  }

  /** The inputs given, or else the configured ones, or else the configured source; a folder has a
      configured source only. */
  predicate AreInputs(grammar: Grammar, given: seq<Argument>, fallback: Fallback, inputs: seq<Argument>) {
    && inputs != []
    && if given != [] then inputs == given
       else if fallback.inputs.Some? && grammar != FolderGrammar then inputs == fallback.inputs.value
       else fallback.source.Some? && inputs == [fallback.source.value]
  }

  lemma InputsExactly(grammar: Grammar, given: seq<Argument>, fallback: Fallback, inputs: seq<Argument>)
    ensures ResolveInputs(grammar, given, fallback) == Ok(inputs) <==> AreInputs(grammar, given, fallback, inputs)
  {
  }

  /** The request of a command: every setting, the label, the inputs and the server part, read from the
      command's arguments over what it started with. */
  ghost predicate IsRequest(grammar: Grammar, arguments: seq<Argument>, state: SourceState, settings: ServerSettings,
                            fallback: Fallback, request: UploadRequest)
  {
    var source := SourceOf(grammar, arguments);
    && (forall slot :: ReadSource(request.source, slot) == OrElse(LastIn(grammar, source, slot), ReadSource(state, slot)))
    && Some(request.source.sourceLabel) == OrElse(LastLabel(grammar, source), Some(state.sourceLabel))
    && AreInputs(grammar, state.inputs + InputsOf(grammar, source), fallback, request.source.inputs)
    && request.uploadScan == request.source.scan
    && IsServed(ServerOf(grammar, arguments), settings,
                ServerSettings(Some(request.server), request.productionRead, request.caCertificate))
  }

  lemma InputsAreNotSettings(state: SourceState, inputs: seq<Argument>, slot: Slot)
    ensures ReadSource(state.(inputs := inputs), slot) == ReadSource(state, slot)
  {
  }

  lemma CommandExactly(grammar: Grammar, arguments: seq<Argument>, state: SourceState, settings: ServerSettings)
    ensures var run := if grammar.FolderGrammar? then OnePass(grammar, arguments, state, settings)
                       else StripThenScan(grammar, arguments, state, settings);
      var source, server := SourceOf(grammar, arguments), ServerOf(grammar, arguments);
      && (run.Ok? <==> AreExpected(grammar, source, |state.inputs|) && AreServerGroups(server))
      && (run.Ok? ==> IsParsed(grammar, source, state, run.value.state) && IsServed(server, settings, run.value.settings))
  {
    hide OnePass, StripThenScan, AreExpected, AreServerGroups, IsParsed, IsServed, SourcePart, SourceLeft, ServerPart,
         ServerTaken;
    if grammar.FolderGrammar? {
      OnePassExactly(grammar, arguments, state, settings);
    } else {
      StripThenScanExactly(grammar, arguments, state, settings);
    }
  }

  lemma FinishedIsRequest(grammar: Grammar, arguments: seq<Argument>, state: SourceState, settings: ServerSettings,
                          fallback: Fallback, scanned: Scanned, request: UploadRequest)
    requires IsParsed(grammar, SourceOf(grammar, arguments), state, scanned.state)
    requires IsServed(ServerOf(grammar, arguments), settings, scanned.settings)
    requires Finish(grammar, scanned, fallback) == Ok(request)
    ensures IsRequest(grammar, arguments, state, settings, fallback, request)
  {
    hide LastIn, LastLabel, InputsOf, SourceOf, ServerOf, IsServed, ReadSource, ResolveInputs, AreInputs;
    InputsExactly(grammar, scanned.state.inputs, fallback, request.source.inputs);
    forall slot ensures ReadSource(request.source, slot) == ReadSource(scanned.state, slot) {
      InputsAreNotSettings(scanned.state, request.source.inputs, slot);
    }
    assert scanned.settings
        == ServerSettings(Some(request.server), request.productionRead, request.caCertificate);
  }

  /** Some input is given or configured. */
  ghost predicate HasInputs(grammar: Grammar, given: seq<Argument>, fallback: Fallback) {
    exists inputs :: AreInputs(grammar, given, fallback, inputs)
  }

  lemma FinishesExactly(grammar: Grammar, scanned: Scanned, fallback: Fallback)
    ensures Finish(grammar, scanned, fallback).Ok? <==>
            HasInputs(grammar, scanned.state.inputs, fallback) && scanned.settings.server.Some?
  {
    hide ResolveInputs, AreInputs;
    var resolved := ResolveInputs(grammar, scanned.state.inputs, fallback);
    if resolved.Ok? {
      InputsExactly(grammar, scanned.state.inputs, fallback, resolved.value);
    }
    if inputs :| AreInputs(grammar, scanned.state.inputs, fallback, inputs) {
      InputsExactly(grammar, scanned.state.inputs, fallback, inputs);
    }
  }

  /** A command's request has the last values its arguments give, and there is one exactly when the
      arguments are expected and complete, some input is known and some server is named. */
  lemma RequestsAreRead(grammar: Grammar, arguments: seq<Argument>, state: SourceState, settings: ServerSettings,
                        fallback: Fallback)
    ensures var made := UploadRequestOf(grammar, arguments, state, settings, fallback);
      var source, server := SourceOf(grammar, arguments), ServerOf(grammar, arguments);
      && (made.Ok? ==> IsRequest(grammar, arguments, state, settings, fallback, made.value))
      && (made.Ok? <==>
            && AreExpected(grammar, source, |state.inputs|) && AreServerGroups(server)
            && HasInputs(grammar, state.inputs + InputsOf(grammar, source), fallback)
            && (LastValue(server, "--server").Some? || settings.server.Some?))
  {
    hide OnePass, StripThenScan, AreExpected, AreServerGroups, SourceOf, ServerOf, IsRequest, InputsOf, LastValue, LastIn,
         LastLabel, ReadSource, HasInputs, Finish;
    CommandExactly(grammar, arguments, state, settings);
    var run := if grammar.FolderGrammar? then OnePass(grammar, arguments, state, settings)
               else StripThenScan(grammar, arguments, state, settings);
    if run.Ok? {
      FinishesExactly(grammar, run.value, fallback);
      assert run.value.state.inputs == state.inputs + InputsOf(grammar, SourceOf(grammar, arguments));
      var made := Finish(grammar, run.value, fallback);
      if made.Ok? {
        FinishedIsRequest(grammar, arguments, state, settings, fallback, run.value, made.value);
      }
    }
  }
}

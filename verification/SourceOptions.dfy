/** Option parsing for planning and uploading a source: plan_args.rs, picasa_plan_args.rs and
    import_plan_args.rs of crates/immich-cli/src, over the value readers of args.rs. */
module SourceOptions {
  import opened Bytes
  import opened Remote
  import opened Sequences
  import opened Wrappers

  /** An `OsString`: Unicode, or bytes that are not. */
  datatype Argument = Unicode(text: string) | Opaque(bytes: seq<Byte>)

  datatype Usage = Usage(message: string)

  // ---------------------------------------------------------------- values

  function StringValue(next: Option<Argument>): Result<string, Usage> {
    if next.Some? && next.value.Unicode? then Ok(next.value.text) else Err(Usage("a Unicode value is required"))
  }

  function PathValue(next: Option<Argument>): Result<Argument, Usage> {
    if next.Some? then Ok(next.value) else Err(Usage("a path is required"))
  }

  function NumberValue(next: Option<Argument>): Result<nat, Usage> {
    match StringValue(next)
    case Err(usage) => Err(usage)
    case Ok(text) =>
      var number := ParseU64(text);
      if number.Some? then Ok(number.value) else Err(Usage("a positive integer is required"))
  }

  datatype AlbumMode = NoAlbums | FolderAlbums | PathAlbums

  function ParseAlbumMode(text: string): Result<AlbumMode, Usage> {
    if text == "none" then Ok(NoAlbums)
    else if text == "folder" then Ok(FolderAlbums)
    else if text == "path" then Ok(PathAlbums)
    else Err(Usage("--album-mode requires none, folder or path"))
  }

  function ModeValue(next: Option<Argument>): Result<AlbumMode, Usage> {
    match StringValue(next)
    case Err(usage) => Err(usage)
    case Ok(text) => ParseAlbumMode(text)
  }

  // ---------------------------------------------------------------- configuration records

  datatype ScanConfig = ScanConfig(
    bufferBytes: nat,
    maxEntries: nat,
    maxDirectoryEntries: nat,
    maxPathBytes: nat,
    caseSensitive: bool)

  datatype ArchiveLimits = ArchiveLimits(
    maxArchives: nat,
    maxArchiveEntryBytes: nat,
    maxCompressionRatio: nat,
    compressionRatioGraceBytes: nat)

  datatype AlbumConfig = AlbumConfig(mode: AlbumMode, pathJoiner: string)

  datatype PicasaFlags = PicasaFlags(picasaAlbums: bool, filenameDate: bool)

  /** The four source parsers; each recognizes a larger set of options than the one before. */
  datatype Grammar = FolderGrammar | TakeoutGrammar | AppleGrammar | PicasaGrammar

  /** What a source parser updates. The folder parser leaves the last three records alone, and so on. */
  datatype SourceState = SourceState(
    sourceLabel: string,
    inputs: seq<Argument>,
    scan: ScanConfig,
    limits: ArchiveLimits,
    albums: AlbumConfig,
    flags: PicasaFlags)

  datatype ServerSettings = ServerSettings(
    server: Option<string>,
    productionRead: bool,
    caCertificate: Option<Argument>)

  // ---------------------------------------------------------------- one source option

  const SCAN_NUMBERS := {"--buffer-bytes", "--max-entries", "--max-directory-entries", "--max-path-bytes"}
  const SCAN_FLAGS := {"--case-sensitive", "--case-insensitive"}
  const LIMITS :=
    {"--max-archives", "--max-archive-entry-bytes", "--max-compression-ratio", "--compression-ratio-grace-bytes"}
  const PICASA_FLAGS := {"--picasa-albums", "--no-picasa-albums", "--filename-date", "--no-filename-date"}

  /** `common_scan_option`, for an option that takes a number. */
  function SetScanNumber(scan: ScanConfig, option: string, number: nat): ScanConfig {
    if option == "--buffer-bytes" then scan.(bufferBytes := number)
    else if option == "--max-entries" then scan.(maxEntries := number)
    else if option == "--max-directory-entries" then scan.(maxDirectoryEntries := number)
    else scan.(maxPathBytes := number)
  }

  function SetLimit(limits: ArchiveLimits, option: string, number: nat): ArchiveLimits {
    if option == "--max-archives" then limits.(maxArchives := number)
    else if option == "--max-archive-entry-bytes" then limits.(maxArchiveEntryBytes := number)
    else if option == "--max-compression-ratio" then limits.(maxCompressionRatio := number)
    else limits.(compressionRatioGraceBytes := number)
  }

  function SetPicasaFlag(flags: PicasaFlags, option: string): PicasaFlags {
    if option == "--picasa-albums" then flags.(picasaAlbums := true)
    else if option == "--no-picasa-albums" then flags.(picasaAlbums := false)
    else if option == "--filename-date" then flags.(filenameDate := true)
    else flags.(filenameDate := false)
  }

  function HasLimits(grammar: Grammar): bool {
    !grammar.FolderGrammar?
  }

  function HasAlbums(grammar: Grammar): bool {
    grammar.AppleGrammar? || grammar.PicasaGrammar?
  }

  /** How many arguments an argument in option position takes up. */
  function Width(grammar: Grammar, argument: Argument): nat {
    if !argument.Unicode? then 1
    else if argument.text in SCAN_NUMBERS || argument.text == "--label" then 2
    else if HasLimits(grammar) && argument.text in LIMITS then 2
    else if HasAlbums(grammar) && argument.text in {"--album-mode", "--album-path-joiner"} then 2
    else 1
  }

  /** A positional argument: the folder parser takes one, the others any number. */
  function Positional(grammar: Grammar, argument: Argument, state: SourceState): Result<SourceState, Usage> {
    if grammar.FolderGrammar? && |state.inputs| > 0 then Err(Usage("plan accepts exactly one source path"))
    else Ok(state.(inputs := state.inputs + [argument]))
  }

  /** One round of a source parser's loop, given the argument after the current one. */
  function SourceStep(grammar: Grammar, argument: Argument, next: Option<Argument>, state: SourceState)
    : Result<SourceState, Usage>
  {
    if !argument.Unicode? then Positional(grammar, argument, state)
    else
      var option := argument.text;
      if option in SCAN_NUMBERS then
        match NumberValue(next)
        case Err(usage) => Err(usage)
        case Ok(number) => Ok(state.(scan := SetScanNumber(state.scan, option, number)))
      else if option in SCAN_FLAGS then
        Ok(state.(scan := state.scan.(caseSensitive := option == "--case-sensitive")))
      else if option == "--label" then
        match StringValue(next)
        case Err(usage) => Err(usage)
        case Ok(text) => Ok(state.(sourceLabel := text))
      else if HasLimits(grammar) && option in LIMITS then
        match NumberValue(next)
        case Err(usage) => Err(usage)
        case Ok(number) => Ok(state.(limits := SetLimit(state.limits, option, number)))
      else if HasAlbums(grammar) && option == "--album-mode" then
        match ModeValue(next)
        case Err(usage) => Err(usage)
        case Ok(mode) => Ok(state.(albums := state.albums.(mode := mode)))
      else if HasAlbums(grammar) && option == "--album-path-joiner" then
        match StringValue(next)
        case Err(usage) => Err(usage)
        case Ok(joiner) => Ok(state.(albums := state.albums.(pathJoiner := joiner)))
      else if grammar.PicasaGrammar? && option in PICASA_FLAGS then
        Ok(state.(flags := SetPicasaFlag(state.flags, option)))
      else if |option| > 0 && option[0] == '-' then Err(Usage("unsupported plan option"))
      else Positional(grammar, argument, state)
  }

  function NextOf(arguments: seq<Argument>): Option<Argument> {
    if |arguments| > 1 then Some(arguments[1]) else None
  }

  // ---------------------------------------------------------------- one server option

  predicate IsServerFlag(argument: Argument) {
    argument.Unicode? && argument.text in {"--server", "--authorize-production-read", "--ca-certificate"}
  }

  function ServerWidth(argument: Argument): nat {
    if argument == Unicode("--authorize-production-read") then 1 else 2
  }

  function ServerStep(argument: Argument, next: Option<Argument>, settings: ServerSettings): Result<ServerSettings, Usage>
    requires IsServerFlag(argument)
  {
    if argument.text == "--server" then
      match StringValue(next)
      case Err(usage) => Err(usage)
      case Ok(server) => Ok(settings.(server := Some(server)))
    else if argument.text == "--authorize-production-read" then Ok(settings.(productionRead := true))
    else
      match PathValue(next)
      case Err(usage) => Err(usage)
      case Ok(path) => Ok(settings.(caCertificate := Some(path)))
  }

  // ---------------------------------------------------------------- the three loops

  /** A source parser's loop. */
  function Scan(grammar: Grammar, arguments: seq<Argument>, state: SourceState): Result<SourceState, Usage>
    decreases |arguments|
  {
    if |arguments| == 0 then Ok(state)
    else
      var width := Width(grammar, arguments[0]);
      match SourceStep(grammar, arguments[0], NextOf(arguments), state)
      case Err(usage) => Err(usage)
      case Ok(updated) => if width <= |arguments| then Scan(grammar, arguments[width..], updated) else Ok(updated)
  }

  datatype Stripped = Stripped(settings: ServerSettings, rest: seq<Argument>)

  /** The loop that takes the server options out and leaves the rest for the source parser. */
  function Strip(arguments: seq<Argument>, settings: ServerSettings): Result<Stripped, Usage>
    decreases |arguments|
  {
    if |arguments| == 0 then Ok(Stripped(settings, []))
    else if IsServerFlag(arguments[0]) then
      match ServerStep(arguments[0], NextOf(arguments), settings)
      case Err(usage) => Err(usage)
      case Ok(updated) =>
        if ServerWidth(arguments[0]) <= |arguments| then Strip(arguments[ServerWidth(arguments[0])..], updated)
        else Ok(Stripped(updated, []))
    else
      match Strip(arguments[1..], settings)
      case Err(usage) => Err(usage)
      case Ok(stripped) => Ok(stripped.(rest := [arguments[0]] + stripped.rest))
  }

  datatype Scanned = Scanned(state: SourceState, settings: ServerSettings)

  /** The one-pass loop, which handles both kinds of options where they stand. */
  function OnePass(grammar: Grammar, arguments: seq<Argument>, state: SourceState, settings: ServerSettings)
    : Result<Scanned, Usage>
    decreases |arguments|
  {
    if |arguments| == 0 then Ok(Scanned(state, settings))
    else if IsServerFlag(arguments[0]) then
      match ServerStep(arguments[0], NextOf(arguments), settings)
      case Err(usage) => Err(usage)
      case Ok(updated) =>
        if ServerWidth(arguments[0]) <= |arguments| then
          OnePass(grammar, arguments[ServerWidth(arguments[0])..], state, updated)
        else Ok(Scanned(state, updated))
    else
      var width := Width(grammar, arguments[0]);
      match SourceStep(grammar, arguments[0], NextOf(arguments), state)
      case Err(usage) => Err(usage)
      case Ok(updated) =>
        if width <= |arguments| then OnePass(grammar, arguments[width..], updated, settings)
        else Ok(Scanned(updated, settings))
  }

  function StripThenScan(grammar: Grammar, arguments: seq<Argument>, state: SourceState, settings: ServerSettings)
    : Result<Scanned, Usage>
  {
    match Strip(arguments, settings)
    case Err(usage) => Err(usage)
    case Ok(stripped) =>
      match Scan(grammar, stripped.rest, state)
      case Err(usage) => Err(usage)
      case Ok(scanned) => Ok(Scanned(scanned, stripped.settings))
  }

  // ---------------------------------------------------------------- the two forms agree

  /** A step that succeeds has found the arguments it takes up, so no loop runs past the end. */
  lemma StepsStayInside(grammar: Grammar, arguments: seq<Argument>, state: SourceState, settings: ServerSettings)
    requires |arguments| > 0
    ensures !IsServerFlag(arguments[0]) && SourceStep(grammar, arguments[0], NextOf(arguments), state).Ok? ==>
            1 <= Width(grammar, arguments[0]) <= |arguments|
    ensures IsServerFlag(arguments[0]) && ServerStep(arguments[0], NextOf(arguments), settings).Ok? ==>
            1 <= ServerWidth(arguments[0]) <= |arguments|
  {
  }

  /** No source option has a server flag where its value should be. The flags themselves may have
      anything as their value. */
  predicate NoFlagAsValue(grammar: Grammar, arguments: seq<Argument>)
    decreases |arguments|
  {
    if |arguments| == 0 then true
    else if IsServerFlag(arguments[0]) then
      ServerWidth(arguments[0]) > |arguments| || NoFlagAsValue(grammar, arguments[ServerWidth(arguments[0])..])
    else
      var width := Width(grammar, arguments[0]);
      width > |arguments|
      || ((width == 2 ==> !IsServerFlag(arguments[1])) && NoFlagAsValue(grammar, arguments[width..]))
  }

  ghost predicate Agree<T>(a: Result<T, Usage>, b: Result<T, Usage>) {
    (a.Ok? <==> b.Ok?) && (a.Ok? ==> a.value == b.value)
  }

  lemma WidthIsOneOrTwo(grammar: Grammar, argument: Argument)
    ensures 1 <= Width(grammar, argument) <= 2
    ensures IsServerFlag(argument) ==> 1 <= ServerWidth(argument) <= 2
  {
  }

  lemma StripOne(arguments: seq<Argument>, settings: ServerSettings)
    requires |arguments| >= 1 && !IsServerFlag(arguments[0])
    ensures var rest := Strip(arguments[1..], settings);
      && (Strip(arguments, settings).Ok? <==> rest.Ok?)
      && (rest.Ok? ==> Strip(arguments, settings).value == Stripped(rest.value.settings, [arguments[0]] + rest.value.rest))
  {
    hide ServerStep;
  }

  lemma StripTwo(arguments: seq<Argument>, settings: ServerSettings)
    requires |arguments| >= 2 && !IsServerFlag(arguments[0]) && !IsServerFlag(arguments[1])
    ensures var rest := Strip(arguments[2..], settings);
      && (Strip(arguments, settings).Ok? <==> rest.Ok?)
      && (rest.Ok? ==> Strip(arguments, settings).value
                       == Stripped(rest.value.settings, [arguments[0], arguments[1]] + rest.value.rest))
  {
    hide IsServerFlag;
    StripOne(arguments, settings);
    StripOne(arguments[1..], settings);
    assert arguments[1..][1..] == arguments[2..];
    var rest := Strip(arguments[2..], settings);
    if rest.Ok? {
      assert [arguments[0]] + ([arguments[1]] + rest.value.rest) == [arguments[0], arguments[1]] + rest.value.rest;
    }
  }

  lemma ScanStep(grammar: Grammar, arguments: seq<Argument>, width: nat, tail: seq<Argument>, state: SourceState)
    requires |arguments| > 0 && width == Width(grammar, arguments[0]) <= |arguments|
    ensures Scan(grammar, arguments[..width] + tail, state)
         == match SourceStep(grammar, arguments[0], if width == 2 then Some(arguments[1]) else NextOf([arguments[0]] + tail), state)
            case Err(usage) => Err(usage)
            case Ok(updated) => Scan(grammar, tail, updated)
  {
    hide SourceStep;
    WidthIsOneOrTwo(grammar, arguments[0]);
    var whole := arguments[..width] + tail;
    assert whole[0] == arguments[0] && whole[width..] == tail;
    if width == 1 {
      assert whole == [arguments[0]] + tail;
    }
  }

  /** A step that takes up one argument does not look at the next. */
  lemma NarrowStepsAreLocal(grammar: Grammar, argument: Argument, next: Option<Argument>, other: Option<Argument>,
                            state: SourceState)
    requires Width(grammar, argument) == 1
    ensures SourceStep(grammar, argument, next, state) == SourceStep(grammar, argument, other, state)
  {
  }

  /** Both loops handle a source option at the front the same way. */
  lemma SourceOptionInFront(grammar: Grammar, arguments: seq<Argument>, state: SourceState, settings: ServerSettings)
    requires |arguments| > 0 && !IsServerFlag(arguments[0]) && Width(grammar, arguments[0]) <= |arguments|
    requires NoFlagAsValue(grammar, arguments)
    ensures var updated := SourceStep(grammar, arguments[0], NextOf(arguments), state);
      var both := StripThenScan(grammar, arguments, state, settings);
      if updated.Err? then both.Err?
      else Agree(both, StripThenScan(grammar, arguments[Width(grammar, arguments[0])..], updated.value, settings))
  {
    hide SourceStep, Strip, Scan, Width, IsServerFlag, NoFlagAsValue;
    var first, width := arguments[0], Width(grammar, arguments[0]);
    WidthIsOneOrTwo(grammar, first);
    StripWidth(grammar, arguments, settings);
    var tail := Strip(arguments[width..], settings);
    if tail.Ok? {
      ScanStep(grammar, arguments, width, tail.value.rest, state);
      if width == 1 {
        NarrowStepsAreLocal(grammar, first, NextOf(arguments), NextOf([first] + tail.value.rest), state);
      }
    }
  }

  /** For all arguments in which no server flag stands where a source option expects its value, taking
      the server options out first and scanning the rest gives the same as scanning once. */
  lemma {:induction false} StripThenScanIsOnePass(grammar: Grammar, arguments: seq<Argument>, state: SourceState,
                                                  settings: ServerSettings)
    requires NoFlagAsValue(grammar, arguments)
    ensures Agree(StripThenScan(grammar, arguments, state, settings), OnePass(grammar, arguments, state, settings))
    decreases |arguments|
  {
    hide SourceStep, ServerStep, Width, ServerWidth, IsServerFlag, Scan;
    if |arguments| > 0 {
      var first, next := arguments[0], NextOf(arguments);
      WidthIsOneOrTwo(grammar, first);
      StepsStayInside(grammar, arguments, state, settings);
      if IsServerFlag(first) {
        var updated := ServerStep(first, next, settings);
        if updated.Ok? {
          StripThenScanIsOnePass(grammar, arguments[ServerWidth(first)..], state, updated.value);
        }
      } else if Width(grammar, first) > |arguments| {
        LoneOption(grammar, arguments, state, settings);
      } else {
        SourceOptionInFront(grammar, arguments, state, settings);
        hide StripThenScan;
        var updated := SourceStep(grammar, first, next, state);
        if updated.Ok? {
          StripThenScanIsOnePass(grammar, arguments[Width(grammar, first)..], updated.value, settings);
        }
      }
    } else {
      assert Scan(grammar, [], state) == Ok(state) by {
        ScanNothing(grammar, state);
      }
    }
  }

  lemma ScanNothing(grammar: Grammar, state: SourceState)
    ensures Scan(grammar, [], state) == Ok(state)
  {
  }

  lemma StripWidth(grammar: Grammar, arguments: seq<Argument>, settings: ServerSettings)
    requires |arguments| > 0 && !IsServerFlag(arguments[0]) && Width(grammar, arguments[0]) <= |arguments|
    requires NoFlagAsValue(grammar, arguments)
    ensures var width := Width(grammar, arguments[0]);
      var rest := Strip(arguments[width..], settings);
      && (Strip(arguments, settings).Ok? <==> rest.Ok?)
      && (rest.Ok? ==>
            Strip(arguments, settings).value == Stripped(rest.value.settings, arguments[..width] + rest.value.rest))
  {
    hide IsServerFlag, Width, Strip;
    WidthIsOneOrTwo(grammar, arguments[0]);
    if Width(grammar, arguments[0]) == 1 {
      StripOne(arguments, settings);
      assert arguments[..1] == [arguments[0]];
    } else {
      StripTwo(arguments, settings);
      assert arguments[..2] == [arguments[0], arguments[1]];
    }
  }

  lemma LoneOption(grammar: Grammar, arguments: seq<Argument>, state: SourceState, settings: ServerSettings)
    requires |arguments| > 0 && !IsServerFlag(arguments[0]) && Width(grammar, arguments[0]) > |arguments|
    ensures StripThenScan(grammar, arguments, state, settings).Err?
  {
    WidthIsOneOrTwo(grammar, arguments[0]);
    assert arguments == [arguments[0]];
    StripOne(arguments, settings);
    assert Strip(arguments[1..], settings) == Ok(Stripped(settings, []));
    assert [arguments[0]] + [] == arguments;
    StepsStayInside(grammar, arguments, state, settings);
  }

  /** The arguments one pass hands to the source options: everything but the server groups that stand in
      option position. */
  function SourceArguments(grammar: Grammar, arguments: seq<Argument>): seq<Argument>
    decreases |arguments|
  {
    if |arguments| == 0 then []
    else if IsServerFlag(arguments[0]) then
      if ServerWidth(arguments[0]) <= |arguments| then
        SourceArguments(grammar, arguments[ServerWidth(arguments[0])..])
      else []
    else
      var width := Width(grammar, arguments[0]);
      if width <= |arguments| then arguments[..width] + SourceArguments(grammar, arguments[width..]) else arguments
  }

  ghost predicate HasServerFlag(arguments: seq<Argument>) {
    exists i :: 0 <= i < |arguments| && IsServerFlag(arguments[i])
  }

  lemma FlagInConcat(first: seq<Argument>, second: seq<Argument>)
    ensures HasServerFlag(first + second) <==> HasServerFlag(first) || HasServerFlag(second)
  {
    hide IsServerFlag;
    var both := first + second;
    if HasServerFlag(first) {
      var i :| 0 <= i < |first| && IsServerFlag(first[i]);
      assert both[i] == first[i];
    }
    if HasServerFlag(second) {
      var i :| 0 <= i < |second| && IsServerFlag(second[i]);
      assert both[|first| + i] == second[i];
    }
  }

  /** What stripping leaves holds no server flag anywhere, not even as a value. */
  lemma {:induction false} StrippedHasNoFlag(arguments: seq<Argument>, settings: ServerSettings)
    ensures Strip(arguments, settings).Ok? ==> !HasServerFlag(Strip(arguments, settings).value.rest)
    decreases |arguments|
  {
    hide IsServerFlag, ServerStep, ServerWidth;
    if |arguments| > 0 && Strip(arguments, settings).Ok? {
      if IsServerFlag(arguments[0]) {
        var updated := ServerStep(arguments[0], NextOf(arguments), settings).value;
        if ServerWidth(arguments[0]) <= |arguments| {
          WidthIsOneOrTwo(FolderGrammar, arguments[0]);
          StrippedHasNoFlag(arguments[ServerWidth(arguments[0])..], updated);
        }
      } else {
        StrippedHasNoFlag(arguments[1..], settings);
        FlagInConcat([arguments[0]], Strip(arguments[1..], settings).value.rest);
      }
    }
  }

  /** A server flag in the place of a value reaches the source options of one pass. */
  lemma {:induction false} FlagAsValueIsKept(grammar: Grammar, arguments: seq<Argument>)
    requires !NoFlagAsValue(grammar, arguments)
    ensures HasServerFlag(SourceArguments(grammar, arguments))
    decreases |arguments|
  {
    hide IsServerFlag, ServerWidth, Width;
    WidthIsOneOrTwo(grammar, arguments[0]);
    if IsServerFlag(arguments[0]) {
      FlagAsValueIsKept(grammar, arguments[ServerWidth(arguments[0])..]);
    } else {
      var width := Width(grammar, arguments[0]);
      FlagInConcat(arguments[..width], SourceArguments(grammar, arguments[width..]));
      if width == 2 && IsServerFlag(arguments[1]) {
        assert arguments[..width][1] == arguments[1];
      } else {
        FlagAsValueIsKept(grammar, arguments[width..]);
      }
    }
  }

  lemma {:induction false} StripLeavesSourceArguments(grammar: Grammar, arguments: seq<Argument>, settings: ServerSettings)
    requires NoFlagAsValue(grammar, arguments) && Strip(arguments, settings).Ok?
    ensures Strip(arguments, settings).value.rest == SourceArguments(grammar, arguments)
    decreases |arguments|
  {
    hide IsServerFlag, ServerStep, ServerWidth, Width;
    if |arguments| > 0 {
      WidthIsOneOrTwo(grammar, arguments[0]);
      if IsServerFlag(arguments[0]) {
        if ServerWidth(arguments[0]) <= |arguments| {
          StripLeavesSourceArguments(grammar, arguments[ServerWidth(arguments[0])..],
                                     ServerStep(arguments[0], NextOf(arguments), settings).value);
        }
      } else if Width(grammar, arguments[0]) <= |arguments| {
        StripWidth(grammar, arguments, settings);
        StripLeavesSourceArguments(grammar, arguments[Width(grammar, arguments[0])..], settings);
      } else {
        assert arguments == [arguments[0]] && arguments[1..] == [];
        StripOne(arguments, settings);
        assert [arguments[0]] + [] == [arguments[0]];
      }
    }
  }

  /** Stripping leaves the source parser exactly the arguments one pass would hand to it, if and only if
      no server flag stands where a source option expects its value. */
  lemma StripIsTransparentExactlyWithoutFlagsAsValues(grammar: Grammar, arguments: seq<Argument>, settings: ServerSettings)
    requires Strip(arguments, settings).Ok?
    ensures Strip(arguments, settings).value.rest == SourceArguments(grammar, arguments)
       <==> NoFlagAsValue(grammar, arguments)
  {
    StrippedHasNoFlag(arguments, settings);
    if NoFlagAsValue(grammar, arguments) {
      StripLeavesSourceArguments(grammar, arguments, settings);
    } else {
      FlagAsValueIsKept(grammar, arguments);
    }
  }

  /** A label that is a server flag makes the two forms differ. */
  lemma FlagAsLabelDiffers(state: SourceState, settings: ServerSettings)
    ensures var arguments := [Unicode("--label"), Unicode("--server")];
      && !NoFlagAsValue(TakeoutGrammar, arguments)
      && StripThenScan(TakeoutGrammar, arguments, state, settings).Err?
      && OnePass(TakeoutGrammar, arguments, state, settings)
         == Ok(Scanned(state.(sourceLabel := "--server"), settings))
  {
    var option, flag := Unicode("--label"), Unicode("--server");
    LabelStep(flag, state);
    StripOne([option, flag], settings);
    assert [option, flag][1..] == [flag] && [option, flag][2..] == [];
  }

  /** Such a flag need not show in the results: here both forms fail, on the missing number and on the
      missing server. */
  lemma FlaggedArgumentsMayAgree(state: SourceState, settings: ServerSettings)
    ensures var arguments := [Unicode("--max-entries"), Unicode("--server")];
      && !NoFlagAsValue(TakeoutGrammar, arguments)
      && Agree(StripThenScan(TakeoutGrammar, arguments, state, settings),
               OnePass(TakeoutGrammar, arguments, state, settings))
  {
    var option, flag := Unicode("--max-entries"), Unicode("--server");
    assert option.text in SCAN_NUMBERS && !IsServerFlag(option) && IsServerFlag(flag);
    NoNumber();
    hide ParseU64;
    assert ServerStep(flag, None, settings).Err?;
    assert SourceStep(TakeoutGrammar, option, Some(flag), state).Err?;
    hide SourceStep, ServerStep;
    StripOne([option, flag], settings);
    assert [option, flag][1..] == [flag] && NextOf([flag]) == None && NextOf([option, flag]) == Some(flag);
    assert Strip([flag], settings).Err?;
    assert OnePass(TakeoutGrammar, [option, flag], state, settings).Err?;
  }

  lemma NoNumber()
    ensures ParseU64("--server") == None
  {
    assert "--server"[0] == '-';
  }

  lemma LabelStep(value: Argument, state: SourceState)
    requires value.Unicode?
    ensures SourceStep(TakeoutGrammar, Unicode("--label"), Some(value), state) == Ok(state.(sourceLabel := value.text))
    ensures Width(TakeoutGrammar, Unicode("--label")) == 2
    ensures !IsServerFlag(Unicode("--label"))
  {
    assert |"--label"| == 7;
  }

  // ---------------------------------------------------------------- interleavings

  predicate OfServer(group: seq<Argument>) {
    |group| > 0 && IsServerFlag(group[0])
  }

  /** An option with everything it takes up, or a positional argument; no source option has a server
      flag for its value. */
  predicate IsGroup(grammar: Grammar, group: seq<Argument>) {
    && |group| > 0
    && if IsServerFlag(group[0]) then |group| == ServerWidth(group[0])
       else |group| == Width(grammar, group[0]) && (|group| == 2 ==> !IsServerFlag(group[1]))
  }

  predicate AreGroups(grammar: Grammar, groups: seq<seq<Argument>>) {
    forall i :: 0 <= i < |groups| ==> IsGroup(grammar, groups[i])
  }

  function ServerGroups(groups: seq<seq<Argument>>): seq<seq<Argument>> {
    Filter(groups, (group: seq<Argument>) => OfServer(group))
  }

  function SourceGroups(groups: seq<seq<Argument>>): seq<seq<Argument>> {
    Filter(groups, (group: seq<Argument>) => !OfServer(group))
  }

  /** The server options alone, in order. */
  function ApplyServer(groups: seq<seq<Argument>>, settings: ServerSettings): Result<ServerSettings, Usage> {
    if |groups| == 0 then Ok(settings)
    else if !OfServer(groups[0]) then ApplyServer(groups[1..], settings)
    else
      match ServerStep(groups[0][0], NextOf(groups[0]), settings)
      case Err(usage) => Err(usage)
      case Ok(updated) => ApplyServer(groups[1..], updated)
  }

  lemma FlattenStartsWith(groups: seq<seq<Argument>>)
    requires |groups| > 0 && |groups[0]| > 0
    ensures var all := Flatten(groups);
      && |all| >= |groups[0]| && all[..|groups[0]|] == groups[0] && all[|groups[0]|..] == Flatten(groups[1..])
      && all[0] == groups[0][0] && (|groups[0]| == 2 ==> all[1] == groups[0][1] && NextOf(all) == NextOf(groups[0]))
  {
  }

  lemma GroupsSplit(groups: seq<seq<Argument>>)
    requires |groups| > 0
    ensures ServerGroups(groups) == (if OfServer(groups[0]) then [groups[0]] else []) + ServerGroups(groups[1..])
    ensures SourceGroups(groups) == (if OfServer(groups[0]) then [] else [groups[0]]) + SourceGroups(groups[1..])
    ensures Flatten(SourceGroups(groups))
         == (if OfServer(groups[0]) then [] else groups[0]) + Flatten(SourceGroups(groups[1..]))
  {
    hide OfServer;
    var rest := SourceGroups(groups[1..]);
    if OfServer(groups[0]) {
      assert [] + rest == rest;
      assert [] + Flatten(rest) == Flatten(rest);
    } else {
      assert ([groups[0]] + rest)[1..] == rest;
    }
  }

  /** Taking the server options out of well-formed groups applies the server groups in order and
      leaves the source groups in order. */
  lemma {:induction false} StripSeparatesGroups(grammar: Grammar, groups: seq<seq<Argument>>, settings: ServerSettings)
    requires AreGroups(grammar, groups)
    ensures var stripped, applied := Strip(Flatten(groups), settings), ApplyServer(ServerGroups(groups), settings);
      && (stripped.Ok? <==> applied.Ok?)
      && (stripped.Ok? ==> stripped.value == Stripped(applied.value, Flatten(SourceGroups(groups))))
    decreases |groups|
  {
    hide ServerStep, IsServerFlag, ServerWidth, Width, ServerGroups, SourceGroups;
    if |groups| == 0 {
      NoGroups();
    } else {
      var group, all := groups[0], Flatten(groups);
      assert IsGroup(grammar, group);
      WidthIsOneOrTwo(grammar, group[0]);
      FlattenStartsWith(groups);
      GroupsSplit(groups);
      if OfServer(group) {
        assert ([group] + ServerGroups(groups[1..]))[1..] == ServerGroups(groups[1..]);
        OneServerGroup(grammar, groups, settings);
        var updated := ServerStep(group[0], NextOf(group), settings);
        if updated.Ok? {
          StripSeparatesGroups(grammar, groups[1..], updated.value);
          assert [] + Flatten(SourceGroups(groups[1..])) == Flatten(SourceGroups(groups[1..]));
        }
      } else {
        StripSeparatesGroups(grammar, groups[1..], settings);
        assert [] + ServerGroups(groups[1..]) == ServerGroups(groups[1..]);
        if |group| == 1 {
          StripOne(all, settings);
          assert group == [group[0]];
        } else {
          StripTwo(all, settings);
          assert group == [group[0], group[1]];
        }
      }
    }
  }

  lemma NoGroups()
    ensures ServerGroups([]) == [] && SourceGroups([]) == []
  {
  }

  lemma OneServerGroup(grammar: Grammar, groups: seq<seq<Argument>>, settings: ServerSettings)
    requires |groups| > 0 && IsGroup(grammar, groups[0]) && OfServer(groups[0])
    ensures Strip(Flatten(groups), settings)
         == match ServerStep(groups[0][0], NextOf(groups[0]), settings)
            case Err(usage) => Err(usage)
            case Ok(updated) => Strip(Flatten(groups[1..]), updated)
  {
    FlattenStartsWith(groups);
    if |groups[0]| == 1 {
      assert groups[0][0] == Unicode("--authorize-production-read");
    }
  }

  lemma {:induction false} GroupsHaveNoFlagAsValue(grammar: Grammar, groups: seq<seq<Argument>>)
    requires AreGroups(grammar, groups)
    ensures NoFlagAsValue(grammar, Flatten(groups))
    decreases |groups|
  {
    hide IsServerFlag, ServerWidth, Width;
    if |groups| > 0 {
      assert IsGroup(grammar, groups[0]);
      FlattenStartsWith(groups);
      GroupsHaveNoFlagAsValue(grammar, groups[1..]);
    }
  }

  /** For well-formed groups the outcome depends only on the source groups and on the server groups,
      each in their own order, and not on how the two are interleaved; both forms agree on it. */
  lemma InterleavingDoesNotMatter(grammar: Grammar, a: seq<seq<Argument>>, b: seq<seq<Argument>>, state: SourceState,
                                  settings: ServerSettings)
    requires AreGroups(grammar, a) && AreGroups(grammar, b)
    requires SourceGroups(a) == SourceGroups(b) && ServerGroups(a) == ServerGroups(b)
    ensures Agree(StripThenScan(grammar, Flatten(a), state, settings), StripThenScan(grammar, Flatten(b), state, settings))
    ensures Agree(OnePass(grammar, Flatten(a), state, settings), OnePass(grammar, Flatten(b), state, settings))
    ensures Agree(StripThenScan(grammar, Flatten(a), state, settings), OnePass(grammar, Flatten(b), state, settings))
  {
    hide Strip, Scan, OnePass, SourceGroups, ServerGroups, AreGroups;
    StripSeparatesGroups(grammar, a, settings);
    StripSeparatesGroups(grammar, b, settings);
    GroupsHaveNoFlagAsValue(grammar, a);
    GroupsHaveNoFlagAsValue(grammar, b);
    StripThenScanIsOnePass(grammar, Flatten(a), state, settings);
    StripThenScanIsOnePass(grammar, Flatten(b), state, settings);
  }

  /** The value of the last group of a flag. */
  function LastValue(groups: seq<seq<Argument>>, flag: string): Option<Argument> {
    if |groups| == 0 then None
    else
      var later := LastValue(groups[1..], flag);
      if later.Some? then later
      else if |groups[0]| == 2 && groups[0][0] == Unicode(flag) then Some(groups[0][1])
      else None
  }

  /** The last server and the last certificate win over earlier ones and over the configuration. */
  lemma {:induction false} LastServerOptionWins(groups: seq<seq<Argument>>, settings: ServerSettings)
    requires forall i :: 0 <= i < |groups| ==> OfServer(groups[i]) && |groups[i]| == ServerWidth(groups[i][0])
    requires ApplyServer(groups, settings).Ok?
    ensures var applied := ApplyServer(groups, settings).value;
      var server, certificate := LastValue(groups, "--server"), LastValue(groups, "--ca-certificate");
      && (server.None? ==> applied.server == settings.server)
      && (server.Some? ==> server.value.Unicode? && applied.server == Some(server.value.text))
      && applied.caCertificate == (if certificate.Some? then certificate else settings.caCertificate)
      && (applied.productionRead <==> settings.productionRead || [Unicode("--authorize-production-read")] in groups)
    decreases |groups|
  {
    if |groups| > 0 {
      var group := groups[0];
      ServerStepSets(group, settings);
      hide ServerStep, IsServerFlag, ServerWidth;
      var updated := ServerStep(group[0], NextOf(group), settings).value;
      LastServerOptionWins(groups[1..], updated);
      assert groups == [group] + groups[1..];
    }
  }

  lemma ServerStepSets(group: seq<Argument>, settings: ServerSettings)
    requires OfServer(group) && |group| == ServerWidth(group[0])
    requires ServerStep(group[0], NextOf(group), settings).Ok?
    ensures var updated := ServerStep(group[0], NextOf(group), settings).value;
      && (|group| == 2 && group[0] == Unicode("--server") ==>
            group[1].Unicode? && updated == settings.(server := Some(group[1].text)))
      && (|group| == 2 && group[0] == Unicode("--ca-certificate") ==>
            updated == settings.(caCertificate := Some(group[1])))
      && (group == [Unicode("--authorize-production-read")] ==> updated == settings.(productionRead := true))
      && ((|group| == 2 && group[0] == Unicode("--server")) || (|group| == 2 && group[0] == Unicode("--ca-certificate"))
          || group == [Unicode("--authorize-production-read")])
      && Unicode("--server") != Unicode("--ca-certificate")
  {
    assert |"--server"| == 8 && |"--ca-certificate"| == 16;
  }

  // ---------------------------------------------------------------- requests

  /** The configured fall-backs for the positional arguments. */
  datatype Fallback = Fallback(inputs: Option<seq<Argument>>, source: Option<Argument>)

  /** `configured_inputs`, and the root of a folder. */
  function ResolveInputs(grammar: Grammar, given: seq<Argument>, fallback: Fallback): Result<seq<Argument>, Usage> {
    if |given| > 0 then Ok(given)
    else if !grammar.FolderGrammar? && fallback.inputs.Some? then
      if |fallback.inputs.value| > 0 then Ok(fallback.inputs.value) else Err(Usage("at least one input is required"))
    else if fallback.source.Some? then Ok([fallback.source.value])
    else Err(Usage(if grammar.FolderGrammar? then "source path is required" else "at least one input is required"))
  }

  datatype UploadRequest = UploadRequest(
    source: SourceState,
    uploadScan: ScanConfig,
    server: string,
    productionRead: bool,
    caCertificate: Option<Argument>)

  function Finish(grammar: Grammar, scanned: Scanned, fallback: Fallback): Result<UploadRequest, Usage> {
    match ResolveInputs(grammar, scanned.state.inputs, fallback)
    case Err(usage) => Err(usage)
    case Ok(inputs) =>
      if scanned.settings.server.None? then Err(Usage("--server is required"))
      else
        Ok(UploadRequest(scanned.state.(inputs := inputs), scanned.state.scan, scanned.settings.server.value,
                         scanned.settings.productionRead, scanned.settings.caCertificate))
  }

  /** The upload request of the source's own parser: one pass for folders, strip and scan for the rest. */
  function UploadRequestOf(grammar: Grammar, arguments: seq<Argument>, state: SourceState, settings: ServerSettings,
                           fallback: Fallback)
    : Result<UploadRequest, Usage>
  {
    var scanned := if grammar.FolderGrammar? then OnePass(grammar, arguments, state, settings)
                   else StripThenScan(grammar, arguments, state, settings);
    match scanned
    case Err(usage) => Err(usage)
    case Ok(value) => Finish(grammar, value, fallback)
  }

  /** A source parser's loop (plan_args.rs lines 32-63, 82-122, 165-190 without server options and
      picasa_plan_args.rs lines 21-82). */
  method ParseSource(grammar: Grammar, arguments: seq<Argument>, initial: SourceState)
    returns (r: Result<SourceState, Usage>)
    ensures r == Scan(grammar, arguments, initial)
  {
    hide SourceStep, Width;
    var state, index := initial, 0;
    assert arguments[0..] == arguments;
    while index < |arguments|
      invariant 0 <= index <= |arguments|
      invariant Scan(grammar, arguments, initial) == Scan(grammar, arguments[index..], state)
    {
      var rest := arguments[index..];
      WidthIsOneOrTwo(grammar, rest[0]);
      var next := if index + 1 < |arguments| then Some(arguments[index + 1]) else None;
      assert next == NextOf(rest);
      var updated := SourceStep(grammar, arguments[index], next, state);
      if updated.Err? {
        return Err(updated.error);
      }
      StepIsInside(grammar, rest, state);
      assert rest[Width(grammar, rest[0])..] == arguments[index + Width(grammar, rest[0])..];
      state := updated.value;
      index := index + Width(grammar, arguments[index]);
    }
    return Ok(state);
  }

  lemma StepIsInside(grammar: Grammar, arguments: seq<Argument>, state: SourceState)
    requires |arguments| > 0
    ensures SourceStep(grammar, arguments[0], NextOf(arguments), state).Ok? ==>
            Width(grammar, arguments[0]) <= |arguments|
  {
  }

  /** The loop that takes the server options out (import_plan_args.rs lines 14-38). */
  method StripServerOptions(arguments: seq<Argument>, initial: ServerSettings) returns (r: Result<Stripped, Usage>)
    ensures r == Strip(arguments, initial)
  {
    hide ServerStep, IsServerFlag, ServerWidth;
    var settings, rest: seq<Argument>, index := initial, [], 0;
    assert arguments[0..] == arguments;
    ghost var whole := Strip(arguments, initial);
    assert whole.Ok? ==> rest + whole.value.rest == whole.value.rest;
    while index < |arguments|
      invariant 0 <= index <= |arguments|
      invariant match Strip(arguments[index..], settings)
                case Err(usage) => Strip(arguments, initial) == Err(usage)
                case Ok(tail) => Strip(arguments, initial) == Ok(Stripped(tail.settings, rest + tail.rest))
    {
      var left := arguments[index..];
      if IsServerFlag(arguments[index]) {
        var next := if index + 1 < |arguments| then Some(arguments[index + 1]) else None;
        assert next == NextOf(left);
        var updated := ServerStep(arguments[index], next, settings);
        if updated.Err? {
          return Err(updated.error);
        }
        WidthIsOneOrTwo(FolderGrammar, arguments[index]);
        ServerStepIsInside(left, settings);
        assert left[ServerWidth(left[0])..] == arguments[index + ServerWidth(left[0])..];
        settings := updated.value;
        index := index + ServerWidth(arguments[index]);
      } else {
        StripOne(left, settings);
        assert left[1..] == arguments[index + 1..];
        ghost var tail := Strip(left[1..], settings);
        if tail.Ok? {
          Associative(rest, [left[0]], tail.value.rest);
        }
        rest := rest + [arguments[index]];
        index := index + 1;
      }
    }
    assert rest + [] == rest;
    return Ok(Stripped(settings, rest));
  }

  lemma ServerStepIsInside(arguments: seq<Argument>, settings: ServerSettings)
    requires |arguments| > 0 && IsServerFlag(arguments[0])
    ensures ServerStep(arguments[0], NextOf(arguments), settings).Ok? ==> ServerWidth(arguments[0]) <= |arguments|
  {
  }

  /** What one round of the one-pass loop leaves, and how many arguments it takes up. */
  datatype Round = Round(state: SourceState, settings: ServerSettings, width: nat)

  function OneRound(grammar: Grammar, argument: Argument, next: Option<Argument>, state: SourceState, settings: ServerSettings)
    : Result<Round, Usage>
  {
    if IsServerFlag(argument) then
      match ServerStep(argument, next, settings)
      case Err(usage) => Err(usage)
      case Ok(updated) => Ok(Round(state, updated, ServerWidth(argument)))
    else
      match SourceStep(grammar, argument, next, state)
      case Err(usage) => Err(usage)
      case Ok(updated) => Ok(Round(updated, settings, Width(grammar, argument)))
  }

  lemma OnePassRound(grammar: Grammar, arguments: seq<Argument>, state: SourceState, settings: ServerSettings)
    requires |arguments| > 0
    ensures match OneRound(grammar, arguments[0], NextOf(arguments), state, settings)
      case Err(usage) => OnePass(grammar, arguments, state, settings) == Err(usage)
      case Ok(round) =>
        && 1 <= round.width <= |arguments|
        && OnePass(grammar, arguments, state, settings)
           == OnePass(grammar, arguments[round.width..], round.state, round.settings)
  {
    StepsStayInside(grammar, arguments, state, settings);
    WidthIsOneOrTwo(grammar, arguments[0]);
    hide SourceStep, Width, ServerStep, IsServerFlag, ServerWidth;
  }

  /** The loop that handles both kinds of options (plan_args.rs lines 165-190). */
  method ParseInOnePass(grammar: Grammar, arguments: seq<Argument>, initial: SourceState, initialSettings: ServerSettings)
    returns (r: Result<Scanned, Usage>)
    ensures r == OnePass(grammar, arguments, initial, initialSettings)
  {
    var state, settings, index := initial, initialSettings, 0;
    assert arguments[0..] == arguments;
    hide OneRound;
    while index < |arguments|
      invariant 0 <= index <= |arguments|
      invariant OnePass(grammar, arguments, initial, initialSettings)
             == OnePass(grammar, arguments[index..], state, settings)
    {
      hide OnePass;
      var left := arguments[index..];
      var next := if index + 1 < |arguments| then Some(arguments[index + 1]) else None;
      assert next == NextOf(left);
      var round := OneRound(grammar, arguments[index], next, state, settings);
      OnePassRound(grammar, left, state, settings);
      if round.Err? {
        return Err(round.error);
      }
      assert left[round.value.width..] == arguments[index + round.value.width..];
      state, settings := round.value.state, round.value.settings;
      index := index + round.value.width;
    }
    return Ok(Scanned(state, settings));
  }

  /** `parse_upload_folder`, `parse_takeout_upload`, `parse_apple_photos_upload` and the Picasa
      `parse_upload`: whichever loop is used, the request is the one-pass one, and the upload scans
      with the source's own scan settings. */
  method ParseUpload(grammar: Grammar, arguments: seq<Argument>, state: SourceState, settings: ServerSettings,
                     fallback: Fallback)
    returns (r: Result<UploadRequest, Usage>)
    ensures r == UploadRequestOf(grammar, arguments, state, settings, fallback)
    ensures r.Ok? ==> r.value.uploadScan == r.value.source.scan && |r.value.source.inputs| > 0
    ensures NoFlagAsValue(grammar, arguments) ==>
            match OnePass(grammar, arguments, state, settings)
            case Err(_) => r.Err?
            case Ok(scanned) => r == Finish(grammar, scanned, fallback)
  {
    hide OnePass, Strip, Scan, NoFlagAsValue;
    if NoFlagAsValue(grammar, arguments) {
      StripThenScanIsOnePass(grammar, arguments, state, settings);
    }
    var scanned: Result<Scanned, Usage>;
    if grammar.FolderGrammar? {
      scanned := ParseInOnePass(grammar, arguments, state, settings);
    } else {
      var stripped := StripServerOptions(arguments, settings);
      if stripped.Err? {
        return Err(stripped.error);
      }
      var source := ParseSource(grammar, stripped.value.rest, state);
      if source.Err? {
        return Err(source.error);
      }
      scanned := Ok(Scanned(source.value, stripped.value.settings));
    }
    if scanned.Err? {
      return Err(scanned.error);
    }
    return Finish(grammar, scanned.value, fallback);
  }
}

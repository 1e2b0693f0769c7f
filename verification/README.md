# immich-rs verification

A Dafny model of the parts of immich-rs that carry its safety arguments, with proofs of what they
promise. Each module follows one component of the repository:

- **Inventory of an untrusted server.** `Remote` models a server that may answer every request in any
  way, and a client connection that records every request. `ArchiveListing`, `MigrationAssets`,
  `MigrationInventory`, `AlbumProjection` and `ArchivePlan` model the paging, live-photo,
  re-verification, album and deduplication code over it. What they prove holds against every server;
  `PagingTransparency` and `AlbumTransparency` then say exactly what the result is when the server is
  honest and unchanging.
- **Capabilities.** `Capabilities` models endpoints, read clients, probes and the four authorizations
  as steps of a program that may take them in any order. `UploadApply` models the offline gate in front
  of an upload and the routing to an executor. `CapabilityGrants` says exactly what each constructor,
  grant and gate demands.
- **Options and configuration.** `SourceOptions` models the planning parsers in both their forms.
  `Settings` and `Configuration` are tables of the settings, their options, environment variables and
  file keys; `ConfigFile`, `LayeredConfig`, `ApplyArguments` and `ApplyRequests` model the configuration
  file, the environment, the options of `apply` and its request, and are compared with these tables.
  `SourceSettings`, `ApplyAcceptance` and `ConfigAcceptance` say exactly which arguments, files and
  environments are accepted, and which setting each value ends up in.
- **Scripts.** `IdentifierRewrite` (streaming replacement), `ExifPayload` (EXIF writer with a TIFF
  reader; its bytes in `ExifBytes`), `FixtureMedia` and `FixtureArchives` (media writers with readers;
  directory and split-ZIP views; what manifests mean in `FixtureMeaning`), `OciLayout` (the descriptor
  loops of the image layout verifier; what it accepts in `OciAcceptance`, with an accepted archive in
  `OciExample`), `OracleObservation` (request canonicalization and verdict; what a run reports in
  `OracleReport`), `NearestRank` (benchmark aggregates) and `TakeoutSubset` (bounded group selection and
  extraction; its bounds in `TakeoutMeaning`). `AlbumMembership` models the bulk album effects of the
  import client.

`Ordering`, `Sequences`, `Wrappers`, `Bytes`, `BigEndian`, `Hex`, `Json`, `PosixPath`, `Streams` and
`Text` hold what several of them share.

The statements come in two layers. The first says what whole runs keep, refine or leave unchanged. The
second, in the modules named after the meaning, acceptance, grants or report of something and in the
lemmas that end in `Exactly`, says over the fields of requests, documents, objects and bytes what each
decision in these runs accepts and where each value goes, in both directions and without the functions
that decide it: a local host, a signed-off commit, an album's own search, a file's key, a chunk's bytes.

Code that works by loops and updates is modelled by methods and classes that are proved equal to a
function of their inputs (or to state their result outright); the lemmas below are about those
functions. SHA-256, base64, CRC-32, zlib, RFC 3339, URL, JSON and TOML parsing are functions about which
nothing is assumed beyond what a statement says.

Four properties are false as one might first state them. Each has a lemma at an input that shows it:

- A view of a version 1 fixture manifest is not validated, so it can materialize without being a
  partition of the directory view (`VersionOneViewsMayLeaveFilesOut`). A view is a partition exactly
  when it lists every file once (`ViewPartitionsExactlyWhenItCovers`), which validation enforces from
  version 2 on (`ValidatedViewsPartition`).
- The oracle observation sorts by body digest but reports parsed bodies, which also depend on the
  content type (tests/oracle/mock_immich_server.py, line 199), so the arrival order can show
  (`ContentTypeMakesOrderMatter`). Observation and verdict are independent of the arrival order exactly
  when mutating requests with the same method, path, query and digest, and commits with the same
  method, path and digest, have the same parsed body (`OutcomeIsOrderFreeExactlyWhenBodiesAgree`).
- Taking the server options out first is not one-pass parsing when a server flag stands where a source
  option expects its value (`FlagAsLabelDiffers`). Stripping leaves the source parser exactly the
  arguments one pass hands to it if and only if no such flag stands there
  (`StripIsTransparentExactlyWithoutFlagsAsValues`), and then the results agree
  (`StripThenScanIsOnePass`). With such a flag the results may still happen to agree, for instance
  because both forms fail (`FlaggedArgumentsMayAgree`); the exact statement is about what each form
  parses, not about its result.
- The EXIF writer takes identifiers that a TIFF reader does not give back (`ShortIdentifiersAreLost`). An
  identifier survives exactly when it has at least four characters (or is nothing but up to two NULs),
  because a shorter value belongs in the field where the writer puts an offset. The command line
  (scripts/add-live-photo-metadata.py, line 92) admits long identifiers only, and each of them survives
  (`AdmittedIdentifiersSurvive`).

The precedence of README.md (lines 278-279 of the repository's own) holds setting by setting. The
inputs of `apply` are three settings, tried in a fixed order, so a file's upload source hides inputs
given by the environment (`FileUploadSourceHidesEnvironmentInputs`).

## Model

| member | source | states |
|---|---|---|
| IdentifierRewrite.Rewrite | scripts/rewrite-synthetic-identifier.py:23-37 | For every split of the input into non-empty chunks, the bytes written are the replacement of the whole input and the count is the number of replacements; the tail carried across a read is always shorter than the source, and the buffer never holds more than that tail and one chunk. |
| IdentifierRewrite.ReplacedIsLeftmost | scripts/rewrite-synthetic-identifier.py:23-37 | The reference replacement cuts the text at its leftmost non-overlapping occurrences and puts the replacement at each cut, as many as are counted. |
| IdentifierRewrite.LeftmostIsUnique | scripts/rewrite-synthetic-identifier.py:23-37 | There is only one way to cut a text at its leftmost non-overlapping occurrences, so the reference leaves no choice. |
| IdentifierRewrite.EqualLengthsKeepTheSize | scripts/rewrite-synthetic-identifier.py:50-51 | With the command's equal-length guard the output is exactly as long as the input. |
| IdentifierRewrite.OneReplacementIsOneWindow | scripts/rewrite-synthetic-identifier.py:52-57 | A count of one means one window of the file changed and every other occurrence of the source overlaps it. |
| IdentifierRewrite.Command | scripts/rewrite-synthetic-identifier.py:40-57 | The command reads and writes nothing when its arguments are refused, and succeeds exactly when one replacement was made. |
| ArchiveListing.ListAsksInOrder | crates/immich-client/src/archive.rs:86-160 | Against every server, pages 1, 2, 3, ... are asked for without gaps, each of the configured size and visibility, with EXIF data, across albums, and including the trash exactly when that is configured, in at most one request more than the allowed number of assets (below the 64-bit ceiling). |
| ArchiveListing.ListIsComplete | crates/immich-client/src/archive.rs:86-160 | Against every server, a successful listing is for the client's own origin and a valid configuration; it holds one asset for each item of each page, with that item's facts, first and in order, then one asset for each live-photo id the items name and do not have, each fetched under its own id in this very call, within the limit. |
| ArchiveListing.CompleteIsClosedAndDistinct | crates/immich-client/src/archive.rs:141-160 | A successful listing contains every live-photo id seen on a page and repeats an id only if the pages did. |
| ArchiveListing.PagesAreCollected | crates/immich-client/src/archive.rs:97-138 | Paging succeeds only with all items of all pages, in order, and all live-photo ids they named. |
| ArchiveListing.RelatedAreAppended | crates/immich-client/src/archive.rs:139-158 | The related phase fetches each missing id once, in ascending order, and only appends. |
| ArchiveListing.TakeItemsIsAllOrNothing | crates/immich-client/src/archive.rs:122-137 | A page's items are taken exactly when all of them convert and fit, and then all of them, in order. |
| ArchiveListing.AcceptedPagesGrow | crates/immich-client/src/archive.rs:112-138 | A page that names a successor adds an asset and names exactly the next page, which is why paging stops. |
| ArchiveListing.PageIsAcceptedExactly | crates/immich-client/src/archive.rs:112-138 | A page is accepted exactly when its total and its items fit, its count is the number of its items, every item can be read, and the page it names next, if any, is the successor and this one is not empty. |
| ArchiveListing.ConvertsExactly | crates/immich-client/src/archive.rs:260-291 | A response converts exactly to the asset that carries its own id, file name, kind, size and decoded checksum, with its live-photo id as it stands; an empty id or name, a kind other than image and video, a missing size or a checksum that is not 20 bytes is refused. |
| ArchiveListing.ListArchiveAssets | crates/immich-client/src/archive.rs:86-160 | The method with the three loops returns what the specification of the listing says and causes exactly its polls, searches and fetches, in order. |
| ArchiveListing.CollectPages | crates/immich-client/src/archive.rs:97-138 | The paging loop, started anywhere, returns the specified listing and events. |
| ArchiveListing.CollectRelated | crates/immich-client/src/archive.rs:139-158 | The related-asset loop, started anywhere, returns the specified assets and events. |
| Hex.LowercaseHex | crates/immich-client/src/archive.rs:293-301 | Two lower-case digits per byte, from which the bytes can be read back. |
| Hex.EncodeIsInjective | crates/immich-client/src/archive.rs:293-301 | Comparing two checksum texts compares the checksums. |
| MigrationAssets.MigrationRefinesListing | crates/immich-client/src/migration.rs:272-305 | A response accepted for migration is one the listing accepts, with the same id, name, kind, size and checksum. |
| MigrationAssets.MigratesExactly | crates/immich-client/src/migration.rs:272-347 | A response is accepted exactly as the asset in which creation and modification are the whole milliseconds, towards zero, of its own two instants, and the description, the moment taken (or else created) and the coordinates stand each in its own place. |
| MigrationAssets.ReverifiedChecksum | crates/immich-client/src/migration.rs:112-122 | A listed asset that re-verifies against a later response has that response's checksum bytes. |
| MigrationInventory.InventoryIsVerified | crates/immich-client/src/migration.rs:96-138 | Against every server, a successful inventory holds exactly the listed ids, once each and ascending; every asset agrees with a listed one on all five compared facts and carries the facts, times and metadata of the response to a fetch of its own id in this call. |
| MigrationInventory.InventoryAsksForTheTimeline | crates/immich-client/src/migration.rs:96-111 | Against every server the asset half asks for pages 1, 2, 3, ... of the timeline, of the configured size, with EXIF data and without the trash, and for nothing else. |
| MigrationInventory.SortAndCheckMeans | crates/immich-client/src/migration.rs:123-130 | Sorting and checking succeeds exactly when no id is repeated, and then gives the same assets in ascending order of id. |
| MigrationInventory.CollectInventoryAssets | crates/immich-client/src/migration.rs:96-131 | The method returns the specified inventory and causes exactly its requests. |
| MigrationInventory.ReverifyAll | crates/immich-client/src/migration.rs:106-130 | The re-verification loop and the sort return the specified result and events. |
| PagingTransparency.PagingIsTransparent | crates/immich-client/src/migration.rs:96-138 | Two honest servers with the same responses and the same set of distinct timeline ids give the same inventory, whatever the page sizes, the page splits and the order. |
| PagingTransparency.HonestInventory | crates/immich-client/src/migration.rs:96-138 | For an honest server the inventory is the ascending closure of the timeline under live-photo ids, each asset carrying the facts of its own response field by field; it succeeds exactly when that closure fits and every response in it can be migrated. |
| PagingTransparency.HonestListing | crates/immich-client/src/archive.rs:86-160 | For an honest server the listing succeeds exactly when the closure of the timeline fits and converts. |
| PagingTransparency.EverySplitIsServed | crates/immich-client/src/archive.rs:86-138 | Every well-formed split of a timeline into pages is served by some honest server, so the statements above are about something. |
| AlbumProjection.AlbumsAreTheProjection | crates/immich-client/src/migration.rs:149-212 | Against every server: the albums are the non-empty projections, onto the allowed ids, of the lists this very call fetched for the announced albums, which are the items of the pages in its own log; they are ordered by name and then id, and the memberships sum to at most the limit although they are added with saturation (limit below the 64-bit ceiling). |
| AlbumProjection.FetchedIsDetermined | crates/immich-client/src/migration.rs:182-205 | A call fetches one list of ids for each album: no other lists fit its requests and the server's answers. |
| AlbumProjection.FetchedIsWhatTheLogShows | crates/immich-client/src/migration.rs:182-262 | The fetched lists, one after the other, are the ids of all items on all album pages of the call's own log, in order. |
| AlbumProjection.KeptAlbumsAreExact | crates/immich-client/src/migration.rs:178-205 | Every kept album is announced, not empty, strictly ascending, and holds exactly the fetched ids that are allowed. |
| AlbumProjection.AlbumsInScopeAreKept | crates/immich-client/src/migration.rs:178-205 | An announced album with at least one allowed id is kept. |
| AlbumProjection.MembershipsAreInScope | crates/immich-client/src/migration.rs:131-147 | Every membership of a successful inventory is one of its own assets. |
| AlbumProjection.AlbumPagingIsBounded | crates/immich-client/src/migration.rs:214-262 | Against every server, the searches for an album are for that album's id on the timeline, page after page, of the configured size, and at most one more than the memberships that fit. |
| AlbumProjection.AlbumsAreAskedFor | crates/immich-client/src/migration.rs:149-262 | Against every server the album half searches only for the announced albums, one after the other, each by its own id from its first page on. |
| AlbumProjection.AlbumPageIsAcceptedExactly | crates/immich-client/src/migration.rs:238-262 | An album page is accepted exactly when its count is right, all its ids are well formed and fit, and the page it names next, if any, is the successor and this one is not empty. |
| AlbumTransparency.HonestAlbums | crates/immich-client/src/migration.rs:149-262 | On a server that pages a fixed list per album id, each album is its own list intersected with the allowed ids, ascending and once each; the non-empty ones come back by name and id; it succeeds exactly when every announcement and list is well formed and fits, and all fit together. |
| AlbumTransparency.HonestFullInventory | crates/immich-client/src/migration.rs:96-147 | An honest server's whole inventory: the closure of its timeline, field by field, and every announced album restricted to that closure, exactly when everything fits. |
| AlbumTransparency.EveryAccountIsServed | crates/immich-client/src/migration.rs:96-147 | For every well-formed split of a timeline and of its albums there is a server that serves them, so the statements above are about something. |
| AlbumTransparency.AnnouncementsAreAcceptable | crates/immich-client/src/migration.rs:149-181 | Against every server the album half succeeds only for its own origin and for albums announced with a lower-case version 4 UUID, a bounded plain name and a count within the limit. |
| AlbumProjection.AlbumPagesAreCollected | crates/immich-client/src/migration.rs:214-262 | A collected album holds the id of every item of every page, in order, all of them well formed. |
| AlbumProjection.MigrationAlbums | crates/immich-client/src/migration.rs:149-212 | The method returns the specified albums and causes exactly its requests. |
| AlbumProjection.MigrationAlbumAssets | crates/immich-client/src/migration.rs:214-262 | The album paging loop returns the specified ids and events. |
| AlbumProjection.CollectInventory | crates/immich-client/src/migration.rs:96-147 | The whole inventory call returns the specified assets and albums and causes exactly its requests. |
| ArchivePlan.ListedTotalIsBounded | crates/immich-application/src/archive.rs:29-52 | The assets listed across all visibilities never exceed the one budget, whatever each visibility returns. |
| ArchivePlan.Deduplicate | crates/immich-application/src/archive.rs:54-64 | Fails exactly when two listed entries share an id but differ, and otherwise passes each distinct asset on once, ascending by id. |
| ArchivePlan.EachOnceByIdIsUnique | crates/immich-application/src/archive.rs:54-66 | There is only one list that has each asset once in ascending order of id. |
| ArchivePlan.PlanArchive | crates/immich-application/src/archive.rs:14-66 | The method lists the selected visibilities within one budget, in order, and reports changed facts exactly when two listed entries conflict. |
| ArchivePlan.PlanAsksForTheSelection | crates/immich-application/src/archive.rs:14-52 | Against every server a plan pages through the timeline, the archive or the hidden assets, or all three in this order, as selected, and asks for nothing else. |
| Capabilities.EveryHeldObjectIsSound | crates/immich-client/src/read.rs:114-341 | Over every sequence of construct, probe and authorize steps, each mutation-capable client is disposable and its origin's host is local (127.0.0.0/8, ::1, localhost or a name below it), or it is acknowledged, over HTTPS to a host that is not local, and bound to a plan whose server equals the probe's facts; its token proves the client's own origin. |
| Capabilities.StepKeepsSound | crates/immich-client/src/read.rs:114-341 | No single step can make an unsound client out of sound ones. |
| Capabilities.CapabilitiesKeepTheirConstruction | crates/immich-client/src/endpoint.rs:26-60 | No sequence of steps turns a production read client into a disposable uploader or importer, or the reverse; a capability is a disposable one exactly when the host it acts on is local. |
| Capabilities.CapabilityOrigin | crates/immich-client/src/read.rs:330-341 | A capability acts on the origin whose digest its own token holds and carries that token's compatibility facts; if SHA-256 has no collisions, its identity digest is the one of this origin and the token's user. |
| Capabilities.PlanServerPinsOriginAndUser | crates/immich-client/src/read.rs:379-385 | Without digest collisions, production clients for plans with the same server facts act on the same origin for the same user. |
| Capabilities.EndpointsKeepTheirHost | crates/immich-client/src/endpoint.rs:62-91 | For every address: it becomes an endpoint exactly when it is a bare origin over HTTPS, or over HTTP to a local host; the origin is the parsed one with its host, the flag is set exactly for local hosts, and HTTP to any other host is the insecure remote origin. |
| Capabilities.LoopbackIsLocal | crates/immich-client/src/endpoint.rs:127-140 | The local hosts are the IPv4 addresses that begin with 127, the IPv6 address 1, the name localhost in any case, and the names with a non-empty part before .localhost. |
| Capabilities.ProbeAcceptsExactly | crates/immich-client/src/read.rs:198-232 | A probe succeeds exactly against a 3.1 release that is no prerelease, with a bounded user id and without cancellation, and its token names that release with its patch number, the user and the client's own origin. |
| CapabilityGrants.ReadersAreMadeExactly | crates/immich-client/src/read.rs:114-196 | A read client is made exactly for an address its mode permits, a configuration within its bounds, the pinned origin if there is one and a library that builds, and then holds just that. |
| CapabilityGrants.DisposableGrantsExactly | crates/immich-client/src/read.rs:234-260 | A client may upload and import as a disposable one exactly when it is one and its token was issued for its own origin. |
| CapabilityGrants.ProductionUploadGrantedExactly | crates/immich-client/src/read.rs:262-293 | A production upload is granted exactly to an acknowledged client with a token for its own origin and the plan's server, and a confirmation of the valid plan's digest and of the number of its operations. |
| CapabilityGrants.ProductionImportGrantedExactly | crates/immich-client/src/read.rs:295-328 | The same for an import: a plan of the second schema whose confirmation counts its mutations. |
| UploadApply.OfflineGateImpliesAuthorization | crates/immich-application/src/upload_apply.rs:67-137 | After the offline gate the confirmation checks of the routed authorization cannot fail: it is refused exactly when the client is not a production client bound to the probed server and the plan's server. |
| UploadApply.AcceptedConfirmation | crates/immich-application/src/upload_apply.rs:103-137 | An accepted confirmation names this plan's digest and its number of operations, and would be accepted again as it stands: its backup reference is the one given, not empty, at most the allowed bytes, trimmed and free of control characters. |
| UploadApply.ProofsPinOnePlan | crates/immich-client/src/production.rs:53-59 | Plans that match one upload proof have the same digest. |
| UploadApply.ImportProofsPinOnePlan | crates/immich-client/src/production.rs:138-143 | Plans that match one import proof have the same digest. |
| UploadApply.ExecutorRunsAsPrepared | crates/immich-application/src/upload_apply.rs:84-101 | An executor is called in production form exactly when a confirmation was prepared, with a client of the plan's own server, the adapter of the plan's source, and in production a proof that matches that plan. |
| UploadApply.WhenExecutorIsReached | crates/immich-application/src/upload_apply.rs:139-317 | A prepared request reaches its executor exactly when the probe succeeds and the client is of the prepared kind. |
| CapabilityGrants.PreparedExactly | crates/immich-application/src/upload_apply.rs:67-137 | The offline gate passes exactly plans of the two schemas, without a confirmation or with one of that plan's digest and count, and keeps both. |
| CapabilityGrants.ConfirmedExactly | crates/immich-core/src/production.rs:15-42 | A confirmation is made exactly from an acknowledgement, 64 lower-case hexadecimal digits, a positive count, and a reference of 1 to 256 bytes without control characters or white space at its ends. |
| SourceOptions.StripThenScanIsOnePass | crates/immich-cli/src/import_plan_args.rs:10-53 | If no server flag stands in the place of a source option's value, taking the server options out and parsing the rest gives the same request and settings as one pass. |
| SourceOptions.StripIsTransparentExactlyWithoutFlagsAsValues | crates/immich-cli/src/import_plan_args.rs:14-40 | Whenever stripping succeeds, what it leaves is exactly what one pass hands to the source options if and only if no server flag stands in the place of a source option's value. |
| SourceOptions.FlagAsLabelDiffers | crates/immich-cli/src/import_plan_args.rs:14-38 | A label that is a server flag makes the two forms differ. |
| SourceOptions.FlaggedArgumentsMayAgree | crates/immich-cli/src/import_plan_args.rs:14-38 | With such a flag the two forms may also agree, here because both fail. |
| SourceOptions.InterleavingDoesNotMatter | crates/immich-cli/src/plan_args.rs:146-204 | For well-formed option groups the outcome depends only on the order within the source options and within the server options, not on their interleaving, in either form. |
| SourceOptions.StripSeparatesGroups | crates/immich-cli/src/picasa_plan_args.rs:98-136 | Stripping applies the server groups in order and leaves exactly the source groups, in order. |
| SourceOptions.LastServerOptionWins | crates/immich-cli/src/import_plan_args.rs:14-38 | The last server and certificate given win over earlier ones and over the configuration; one acknowledgement is enough. |
| SourceOptions.ParseSource | crates/immich-cli/src/plan_args.rs:20-130 | The index loop of a source parser is the fold over its options. |
| SourceOptions.StripServerOptions | crates/immich-cli/src/import_plan_args.rs:14-38 | The strip loop separates server options from the rest as specified. |
| SourceOptions.ParseInOnePass | crates/immich-cli/src/plan_args.rs:146-204 | The one-pass loop is the fold over both kinds of options. |
| SourceOptions.ParseUpload | crates/immich-cli/src/import_plan_args.rs:10-96 | Whichever form a source uses, its upload request is the one-pass one (outside the excepted arguments), has inputs, and uploads with the source's own scan settings. |
| SourceSettings.LastSourceOptionWins | crates/immich-cli/src/plan_args.rs:283-317 | For every successful scan, each scan, limit, album and flag setting the command admits, and the label, is the last value the arguments give it, or else its initial value; every other setting keeps its own; the inputs are the initial ones and then the positionals in order. |
| SourceSettings.ScanAcceptsExactlyTheExpected | crates/immich-cli/src/plan_args.rs:20-130 | A source parser succeeds exactly when every argument is an input where one is still expected, a label, or an option of the command with a value of its kind. |
| SourceSettings.OnePassExactly | crates/immich-cli/src/plan_args.rs:146-204 | One pass succeeds exactly when its source part is expected and its server options are complete; settings, label, inputs, server and certificate are then the last ones given, or those it started with. |
| SourceSettings.StripThenScanExactly | crates/immich-cli/src/import_plan_args.rs:10-53 | The same for strip and scan, over the arguments that are left. |
| SourceSettings.RequestsAreRead | crates/immich-cli/src/import_plan_args.rs:10-96 | A command's upload request has every setting, the label, the inputs and the server part as its own arguments last give them, and there is one exactly when the arguments are expected and complete, some input is known and some server is named. |
| ApplyArguments.HandlersAreDisjoint | crates/immich-cli/src/apply_args.rs:42-66 | No option is taken by two handlers, so their order is immaterial. |
| ApplyArguments.StepSetsOne | crates/immich-cli/src/apply_args.rs:42-107 | Each round takes up one or two arguments that are there, sets exactly the setting its option is listed for, to the listed kind of value, and leaves every other setting alone. |
| ApplyArguments.LastOptionWins | crates/immich-cli/src/apply_args.rs:41-108 | After the loop each setting has the last value given on the command line, or else its starting value. |
| ApplyArguments.FoldAcceptsExactlyTheWellFormed | crates/immich-cli/src/apply_args.rs:41-108 | The loop succeeds exactly when every option is known, has a value of its kind, and at most one source is given. |
| SourceSettings.ApplyOptionsByName | crates/immich-cli/src/apply_args.rs:42-107 | Each option of `apply` is for the setting its name says, with its kind of value, and no other option is for a setting. |
| LayeredConfig.EnvironmentWinsOverFile | crates/immich-cli/src/environment.rs:81-142 | Each setting of `apply` comes from its own variable when that is set and from the file otherwise; no variable touches another setting. |
| LayeredConfig.EnvironmentWinsForOtherCommands | crates/immich-cli/src/environment.rs:81-203 | The same for the settings of the planning, archive and migration commands. |
| LayeredConfig.EnvironmentWinsForInputs | crates/immich-cli/src/environment.rs:86-91 | The list of inputs is the one its JSON variable holds when that is set, and the file's otherwise. |
| LayeredConfig.SettingsAreKnown | crates/immich-cli/src/environment.rs:8-75 | Every variable a setting is read from is a known one, so setting it is never refused. |
| LayeredConfig.EveryKnownNameIsRead | crates/immich-cli/src/environment.rs:8-61 | Conversely every known variable is read by something. |
| LayeredConfig.ValidateNames | crates/immich-cli/src/environment.rs:63-75 | The name check passes exactly when every variable with the prefix is known. |
| ConfigFile.FileSettingsAreKept | crates/immich-cli/src/config.rs:202-269 | Every setting of `apply` in a loaded configuration is the value under its own section and key of the file, or absent with it; no other key shows in it. |
| ConfigFile.OtherFileSettingsAreKept | crates/immich-cli/src/config.rs:202-269 | The same for the settings of the other commands. |
| LayeredConfig.EffectiveConfig.OverlayEnvironment | crates/immich-cli/src/environment.rs:81-203 | The in-place overlay leaves the object with exactly the overlaid contents of every section, or reports the first malformed variable. |
| LayeredConfig.ExtractTakesOnePairOut | crates/immich-cli/src/config.rs:178-200 | Extraction removes exactly one configuration option with its path, or nothing. |
| LayeredConfig.ExtractInvertsInsertion | crates/immich-cli/src/config.rs:178-200 | The option can stand anywhere: inserting it and extracting gives back the path and the other arguments. |
| LayeredConfig.ExtractConfigArgument | crates/immich-cli/src/config.rs:178-200 | The extraction loop is the specified one, with both of its errors. |
| ConfigAcceptance.ConfigurationLoadsExactly | crates/immich-cli/src/config.rs:162-176 | Loading succeeds exactly when the arguments name at most one file, every prefixed variable is one the program reads and holds a value of its kind, and the chosen file, if any, is a readable configuration. |
| ConfigAcceptance.DocumentsLoadExactly | crates/immich-cli/src/config.rs:202-269 | A document is a configuration exactly when it is of schema version 1 and its other entries are tables of the known sections whose keys are known and have values of their types. |
| ConfigAcceptance.FilesAreReadExactly | crates/immich-cli/src/config.rs:202-230 | A file is read exactly when it is regular and no link, has 1 byte to 1 MiB, and holds UTF-8 text that is valid TOML. |
| ConfigAcceptance.EnvironmentsLoadExactly | crates/immich-cli/src/environment.rs:81-254 | The environment is taken over exactly when every variable that is set fits its setting, whatever the file says. |
| ApplyRequests.ConfigurationWinsOverDefaults | crates/immich-cli/src/args.rs:122-219 | Before any option is read, each setting has its configured value, or else its default. |
| ApplyRequests.CliOverEnvironmentOverFileOverDefault | crates/immich-cli/src/config.rs:162-176 | Every setting of a successful call is the last option given, else its environment variable, else the value under its key in the chosen file, else the default; a dry run drops transport and production settings. |
| ApplyRequests.RequestsAreConsistent | crates/immich-cli/src/apply_args.rs:109-148 | All four configurations share the scan settings and the three sources the archive limits and album settings; a dry run has no transport or confirmation and was given no transport option, any other request has a server. |
| ApplyRequests.ProductionKept | crates/immich-cli/src/apply_args.rs:320-348 | A production request is made exactly when it is no dry run and any production option is given, and then carries all of them. |
| ApplyRequests.InputsComeFromTheFirstSource | crates/immich-cli/src/apply_args.rs:255-281 | The inputs are all of the input options in order, else the one source option, else the three configured fall-backs in order; they are never empty and never mixed. |
| ApplyRequests.FileUploadSourceHidesEnvironmentInputs | crates/immich-cli/src/apply_args.rs:263-273 | An upload source in the file is used although the environment names inputs. |
| ApplyRequests.ParseArguments | crates/immich-cli/src/apply_args.rs:22-125 | The parsing loop and the checks after it return the specified request. |
| ApplyRequests.LoadAndParse | crates/immich-cli/src/config.rs:162-176 | Extracting, checking variable names, loading, overlaying in place and parsing together return the request the layers specify. |
| ApplyAcceptance.RequestsAreMadeExactly | crates/immich-cli/src/apply_args.rs:22-125 | A request is made exactly for known options with fitting values and at most one source, a usable album mode, a plan and a checkpoint, inputs of one kind, a server unless it is a dry run, and either all five production options or none. |
| ExifPayload.PayloadRoundTrips | scripts/add-live-photo-metadata.py:27-72 | For every identifier the writer accepts, a TIFF reader walking IFD0, the Exif IFD and the maker note recovers make and model, and the identifier exactly when it survives reading, in particular for every ASCII identifier of 4 to 127 bytes. |
| ExifPayload.ShortIdentifiersAreLost | scripts/add-live-photo-metadata.py:27-72 | An identifier of three characters is accepted by the writer and not given back by a reader. |
| ExifPayload.AdmittedIdentifiersSurvive | scripts/add-live-photo-metadata.py:87-99 | Every identifier the command line admits is written and comes back whole. |
| ExifPayload.ReadsEverything | scripts/add-live-photo-metadata.py:27-72 | The walk finds the three values for every accepted identifier. |
| ExifPayload.LayoutIsSound | scripts/add-live-photo-metadata.py:27-72 | All ranges the structure refers to are in bounds, disjoint and start on even offsets. |
| ExifPayload.RemovingTheSegmentRestoresTheInput | scripts/add-live-photo-metadata.py:75-84 | Removing the APP1 segment gives back the input, and the segment holds the payload. |
| ExifPayload.Inject | scripts/add-live-photo-metadata.py:75-84 | The streaming writer produces the injected image whatever the sizes of its reads, and writes nothing when it refuses. |
| ExifBytes.PayloadBytes | scripts/add-live-photo-metadata.py:27-72 | Exactly the ASCII identifiers of at most 127 characters give a payload: the Exif header and the big-endian TIFF structure with its tags, types, counts and offsets as numbers. |
| ExifBytes.InjectedBytes | scripts/add-live-photo-metadata.py:75-84 | The stream begins with the start marker, the APP1 marker and the length of the segment, which counts itself. |
| ExifBytes.AdmittedExactly | scripts/add-live-photo-metadata.py:87-99 | The command line admits exactly the synthetic prefix followed by 8 to 80 lower-case letters, digits and hyphens. |
| FixtureMedia.PngRoundTrips | scripts/materialize-fixture.py:106-121 | A PNG reader recovers the requested size and every pixel in the requested color, whatever bytes follow the image. |
| FixtureMedia.PaddedPngShowsTheImage | scripts/materialize-fixture.py:135-153 | A padded image is written exactly for well-formed items, has exactly the requested size, and shows the same picture as the unpadded recipe. |
| FixtureMedia.PaddingIsPeriodic | scripts/materialize-fixture.py:147-153 | The padding is the seed's block over and over, cut to length. |
| FixtureMedia.WritePaddedPng | scripts/materialize-fixture.py:135-153 | The writing loop produces the padded image, and nothing at all when a check fails. |
| FixtureMedia.IsoBmffRoundTrips | scripts/materialize-fixture.py:124-132 | A box reader recovers a QuickTime file type box and a free box that holds the marker, exactly for markers of bounded ASCII. |
| FixtureMeaning.PngBytes | scripts/materialize-fixture.py:106-121 | A PNG is its signature and its header, row and end chunks, in this order; the header gives the size asked for and 8-bit RGB. |
| FixtureMeaning.ChunkBytes | scripts/materialize-fixture.py:102-103 | A chunk is the big-endian length of its data, its kind, its data, and the CRC-32 of kind and data. |
| FixtureMeaning.PaddedPngBytes | scripts/materialize-fixture.py:135-153 | A padded image is made exactly when size, seed and picture are in range; it is the picture, and then the SHA-256 of the seed over and over up to the size asked for. |
| FixtureMeaning.IsoBmffBytes | scripts/materialize-fixture.py:124-132 | The bytes of both boxes, for exactly the markers of 1 to 64 ASCII characters, with the default when none is given. |
| FixtureArchives.ValidatedViewsPartition | scripts/materialize-fixture.py:58-103 | From schema version 2 on, whenever a view materializes, so does the directory view, no path is in two parts or twice in one, the parts together are the directory view, and none of its files is a link. |
| FixtureArchives.ViewPartitionsExactlyWhenItCovers | scripts/materialize-fixture.py:207-233 | For every manifest, a view that materializes is a partition of the directory view exactly when its parts list every file once. |
| FixtureArchives.VersionOneViewsMayLeaveFilesOut | scripts/materialize-fixture.py:64-66 | A version 1 manifest with an unvalidated view that materializes without being a partition. |
| FixtureArchives.SomeValidatedViewMaterializes | scripts/materialize-fixture.py:207-233 | A version 2 manifest with a validated view that materializes. |
| FixtureArchives.ValidateArchiveViews | scripts/materialize-fixture.py:69-103 | The validation loop accepts exactly the valid lists of views with distinct names. |
| FixtureArchives.MaterializeAll | scripts/materialize-fixture.py:183-190 | The loop over the files builds the specified tree or reports the first failure. |
| FixtureArchives.WriteEntries | scripts/materialize-fixture.py:193-204 | The archive loop writes the listed regular files in order, or fails. |
| FixtureArchives.MaterializeView | scripts/materialize-fixture.py:207-233 | The call leaves the specified archives, which are a partition of the directory view whenever the views are validated. |
| FixtureMeaning.PathsExactly | scripts/materialize-fixture.py:29-35 | A path is accepted exactly when it is non-empty and relative without a backslash, a zero or a parent reference, and is normalized by dropping empty and dot segments only. |
| FixtureMeaning.ManifestsExactly | scripts/materialize-fixture.py:38-66 | A manifest loads exactly when it is of one of the four versions, with that version's provenance and nothing besides, and lists at least one file, all paths strictly ascending; from version 2 on it has valid views. |
| FixtureMeaning.ListsOfViewsExactly | scripts/materialize-fixture.py:69-103 | Views are valid exactly when their names are different, their parts are ZIP files below the root in strictly ascending order with sorted files, and each view lists every file of the manifest once and nothing else. |
| FixtureMeaning.DirectoryExactly | scripts/materialize-fixture.py:156-190 | The directory view is made exactly when the manifest is one and its items can be made one after the other; it then holds exactly the items' paths, each with what its own recipe says. |
| FixtureMeaning.ArchiveViewExactly | scripts/materialize-fixture.py:193-233 | An archive view is made exactly when the directory view is and the first view of the name has parts that can be written; there is then one archive per part, under the part's own path, with one entry per path it lists, holding the staged file's bytes. |
| OciLayout.AcceptsExactlyTheAcceptable | scripts/verify-oci-layout.py:162-285 | The descriptor loops accept exactly the lists with one valid image per platform and one valid attestation per image, nothing malformed and nothing else, and report those two digests. |
| OciAcceptance.AcceptsExactlyTwoAttestedImages | scripts/verify-oci-layout.py:162-285 | The descriptor loops accept exactly four descriptors, in some order: one image per platform, whose configuration names that platform, the fixed user and the three labels of the request, and one attestation for each, with one SPDX layer and one SLSA layer whose revisions are the commit; every document is held under its digest with its declared size. The reported digests are those of the images. |
| OciAcceptance.DescriptorReadsExactly | scripts/verify-oci-layout.py:36-78 | A descriptor is read exactly when the archive holds, under its digest, bytes of its declared and bounded size that hash to the digest and parse as an object. |
| OciAcceptance.ImagePassesExactly | scripts/verify-oci-layout.py:166-213 | An image passes exactly when the manifest and configuration held under its digests have its platform, user and labels. |
| OciAcceptance.AttestationPassesExactly | scripts/verify-oci-layout.py:108-142 | An attestation passes exactly when it refers to one of the images and, of its layers, exactly one is annotated SPDX and exactly one SLSA: the first an SPDX document of an in-toto statement, the second with both revisions equal to the commit and the metadata revision equal or absent. |
| OciExample.EveryRequestHasAnAcceptedArchive | scripts/verify-oci-layout.py:162-285 | For every request there is an archive that is accepted, so the statements about accepted archives are about something. |
| OciLayout.AcceptedShape | scripts/verify-oci-layout.py:162-285 | An accepted archive has exactly two images and two attestations, one for each image. |
| OciLayout.ImagesDiffer | scripts/verify-oci-layout.py:166-213 | The two images have different manifest digests, because the configuration names the platform. |
| OciAcceptance.AcceptedAttestations | scripts/verify-oci-layout.py:108-142 | Every attestation of an accepted archive is bound to one of the two reported digests by its own reference, and to the commit by the revisions of its SLSA statement. |
| OciLayout.OrderDoesNotMatter | scripts/verify-oci-layout.py:162-285 | Acceptance and the reported digests do not depend on the order of the descriptors. |
| OciLayout.ClassifySucceeds | scripts/verify-oci-layout.py:166-213 | The first loop succeeds exactly when nothing is malformed and each platform has at most one image, which passes. |
| OciLayout.AttestSucceeds | scripts/verify-oci-layout.py:217-264 | The second loop succeeds exactly when every attestation passes and no image is attested twice. |
| OciLayout.ClassifyAll | scripts/verify-oci-layout.py:162-213 | The loop that fills the platforms and the attestation list computes the specified classification. |
| OciLayout.AttestAll | scripts/verify-oci-layout.py:215-264 | The loop that fills the attested set computes the specified set or failure. |
| OciAcceptance.Verify | scripts/verify-oci-layout.py:151-285 | The whole verification succeeds exactly when the archive is a release for the request: a full lower-case commit, a version, a known image name, and a listed index of the two attested images; it reports their digests, amd64 first. |
| OracleReport.OutcomeIsOrderFreeExactlyWhenBodiesAgree | scripts/run-oracle.py:252-338 | Whatever a case expects, the report and the verdict are independent of the arrival order of requests and commits exactly when mutating requests with the same method, path, query and digest, and commits with the same method, path and digest, have the same parsed body. |
| OracleReport.ReportMeans | scripts/run-oracle.py:265-313 | What a run reports: whether every request was authenticated, one group for each combination of the six fields with its count, in order of their texts, the commits by method, path and digest, and the number of mutating requests. |
| OracleReport.AcceptedExactlyPlaceByPlace | scripts/run-oracle.py:318-337 | A run is accepted exactly when, for every method and path, the expectation lists what the mutating requests did there, in the order of query and digest. |
| OracleObservation.OutcomeIsOrderFreeExactlyWhenTiesAgree | scripts/run-oracle.py:252-338 | The same law over the keys of the sorts and the projections. |
| OracleObservation.ContentTypeMakesOrderMatter | scripts/run-oracle.py:252-338 | Two requests with the same bytes, of which one was parsed and one was not, make the outcome depend on which came first. |
| OracleObservation.MutationsAreOrderFreeExactlyWhenTiesAgree | scripts/run-oracle.py:318-332 | The mutation list is independent of the arrival order exactly when mutating requests that sort alike have the same parsed body. |
| OracleObservation.CommitsAreOrderFreeExactlyWhenDigestsFixBodies | scripts/run-oracle.py:261-288 | The reported commits are independent of the arrival order exactly when equal method, path and digest mean equal parsed bodies. |
| OracleObservation.OrderFreeExactlyWhenTiesAgree | scripts/run-oracle.py:252-264 | A stable sort followed by a projection is independent of the input order exactly when ties project alike. |
| OracleObservation.MutationsAreANormalForm | scripts/run-oracle.py:318-332 | Sorting the already sorted mutations again, by a coarser key, changes nothing. |
| OracleObservation.AcceptedExactlyWhenEachPlaceMatches | scripts/run-oracle.py:318-337 | A case passes exactly when, for every method and path, the expectation lists the mutations' bodies in the order of query and digest; no mutation is missing and none is extra. |
| OracleObservation.GroupsDoNotDependOnOrder | scripts/run-oracle.py:265-280 | The groups and their counts do not depend on the arrival order. |
| OracleObservation.GroupCountsAddUp | scripts/run-oracle.py:265-280 | The group counts add up to the number of requests. |
| OracleObservation.GroupsAreDistinct | scripts/run-oracle.py:265-280 | No two groups have the same fields, and each count is the number of requests with those fields. |
| OracleObservation.GroupRequests | scripts/run-oracle.py:265-313 | The counting loop over a dictionary yields the specified groups in key order. |
| NearestRank.P95IsLeastCovering | scripts/benchmark-phase1.py:153-164 | For every count of samples the p95 index is in range and picks the least number with at least 95 percent of the samples at or below it. |
| NearestRank.LastIsP95ExactlyUpTo19 | scripts/benchmark-phase8.py:227-232 | Taking the last element is nearest-rank p95 for every count up to 19, and for no larger count. |
| NearestRank.ReportsAgree | scripts/benchmark-phase8.py:250-251 | For the enforced 2 to 10 samples the report's p95 is the nearest-rank one it says it is, whatever the order of the samples. |
| NearestRank.MedianIsInTheMiddle | scripts/benchmark-phase1.py:153-164 | The median lies halfway between the least sample with at least half of all at or below it and the greatest with at least half at or above it. |
| NearestRank.SummariesMean | scripts/benchmark-phase8.py:227-232 | Both summaries hold the least, the middle and the largest sample; their p95 is the least number that covers 95 percent, or the largest sample. |
| NearestRank.ClaimedExactlyWhenAllFaster | scripts/benchmark-phase8.py:273-276 | An improvement is claimed exactly when every sample is faster than every sample of the other tool and the median is at least a tenth lower. |
| NearestRank.Aggregate | scripts/benchmark-phase1.py:153-164 | The loop over the fields fills one summary per field, for either form of p95. |
| TakeoutSubset.AdmittedGroupsFit | scripts/run-authorized-takeout-shadow.py:93-112 | An admitted group never trips the extraction bounds; it is extracted exactly when every entry is safe and can be written, and then the totals are the selected ones although the entries are sorted again. |
| TakeoutSubset.ChoiceDoesNotDependOnOrder | scripts/run-authorized-takeout-shadow.py:55-78 | The chosen group and its entries do not depend on the order of the archive. |
| TakeoutSubset.SelectGroup | scripts/run-authorized-takeout-shadow.py:55-78 | The group chosen is admitted and comes first by distance and name among the admitted ones; it fails exactly when none is admitted. |
| TakeoutSubset.SelectedIsSafeExactlyWhenPlain | scripts/run-authorized-takeout-shadow.py:81-90 | A selected entry is refused only for a parent reference or a symbolic link: selection already rules out absolute paths and foreign prefixes. |
| TakeoutSubset.SafeTargetsStayInside | scripts/run-authorized-takeout-shadow.py:81-90 | A safe entry's target is made of plain names below the destination. |
| TakeoutSubset.ExtractEntries | scripts/run-authorized-takeout-shadow.py:93-112 | The extraction loop, which skips directories, counts and fails as specified. |
| TakeoutSubset.ShadowSubset | scripts/run-authorized-takeout-shadow.py:55-112 | Selecting and extracting never exceeds the bounds and reports the totals of the one group that can be chosen. |
| TakeoutMeaning.ChoiceExactly | scripts/run-authorized-takeout-shadow.py:55-78 | The choice is, among the groups below Takeout/Google Photos with at least 100 media files, at most 10 000 entries and at most 2 GiB, the one nearest to 512 MiB, and of equally near ones the first by name. |
| TakeoutMeaning.SafeExactly | scripts/run-authorized-takeout-shadow.py:81-90 | An entry is safe exactly when its name is relative, below Takeout/Google Photos and without a parent reference, and its file type bits are not those of a link. |
| TakeoutMeaning.ChosenIsExtractedExactly | scripts/run-authorized-takeout-shadow.py:93-112 | A group that may be chosen is extracted exactly when all its entries are safe and can be created, and then reports its files, bytes and media as counted from the entries. |
| AlbumMembership.MembershipExactlyWhenConverged | crates/immich-client/src/import.rs:281-310 | After the id checks a response is accepted exactly when its id set is the requested one and the last result for each id is a success or a duplicate. |
| AlbumMembership.NeighboursAreDistinct | crates/immich-client/src/import.rs:281-290 | Comparing neighbours is comparing all pairs: ascending neighbours mean no id is repeated anywhere. |
| AlbumMembership.DistinctResultsDoNotDependOnOrder | crates/immich-client/src/import.rs:292-310 | With one result per id the order of the results does not matter. |
| AlbumMembership.RepeatedResultsDependOnOrder | crates/immich-client/src/import.rs:292-310 | With two results for an id it does: the last one counts. |
| AlbumMembership.InventoryIdsAreLowerCaseImportIds | crates/immich-client/src/import.rs:312-325 | The ids an inventory accepts are exactly the lower-case ones among those an import accepts. |
| AlbumMembership.InventoryNamesImportExactlyWithoutSlash | crates/immich-client/src/import.rs:271-279 | An import accepts exactly the album names an inventory accepts that have no slash, and there are names with a slash among the latter. |
| AlbumMembership.ValidateMembershipResults | crates/immich-client/src/import.rs:292-310 | The collected map and the comparison decide as specified. |
| AlbumMembership.AddAlbumAssets | crates/immich-client/src/import.rs:164-187 | A request is sent exactly for valid ids, with those ids, and the effect is confirmed exactly when the answer names those ids and no others and the last result for each is a success or the duplicate error; every failure is told apart. |
| AlbumMembership.RequestableExactly | crates/immich-client/src/import.rs:281-290 | Ids are valid exactly when there are 1 to 100 000 of them, all well formed, ascending and distinct. |
| AlbumMembership.FindOwnedAlbums | crates/immich-client/src/import.rs:96-132 | Nothing is asked for unless the name is valid; then all albums of the response are returned in order of id, exactly when each has that name and a well-formed id; every failure is told apart. |

## Left out

- HTTP, TLS, DNS pinning, timeouts, response size limits and polling sleeps: library and I/O behaviour. Cancellation is an answer that may come at any poll.
- The executor, journal, checkpoint, source scanners and web console: calls into them appear only as the request that reaches them.
- SHA-256, base64, CRC-32, zlib, RFC 3339, URL, JSON and TOML parsing, number formatting and UTF-8 encoding: uninterpreted functions; a statement that needs them to be faithful says so.
- Live-photo closure of the final migration inventory: the detail response's live-photo id is not compared with the search response, so closure is stated for the archive listing only.
- AlbumProjection.AlbumsAreTheProjection: at a limit of exactly 2^64 - 1 the saturating counter cannot tell a sum at the limit from one beyond it, so there the bound is stated for the saturating sum.
- ArchiveListing.ListAsksInOrder: page numbers saturate at 2^64 - 1, which only a limit of that size can reach.
- Capabilities.EveryHeldObjectIsSound: clients and tokens are values that may be used more than once, which allows every sequence the ownership rules of Rust allow and more.
- SourceOptions.StripThenScanIsOnePass: the four source parsers are one function with a grammar parameter, and usage errors carry one message for each kind of mistake.
- NearestRank.ClaimedExactlyWhenAllFaster: measurements are exact numbers, without floating-point rounding; a zero median, which stops the script, is outside the statement.
- OracleObservation.OutcomeIsOrderFreeExactlyWhenTiesAgree: the process output, the logs and their normalization are not part of the observation here.
- FixtureArchives.ViewPartitionsExactlyWhenItCovers: the file system is a map from relative paths to files and links that may refuse any creation; paths that lead through a generated link, and version 1 views that write an archive into the staging directory, are not modelled.
- FixtureMeaning.DirectoryExactly: which of several mistakes in a manifest is reported is not told apart, since all of them are one class of error.
- TakeoutSubset.AdmittedGroupsFit: the file system is a yes or no for each entry; sizes are the ones the archive declares, and file name suffixes are given case-folded.
- OciLayout.AcceptsExactlyTheAcceptable: the archive is a map from member names to bytes and parsed documents; the TAR format is not part of this model.
- ConfigFile.FileSettingsAreKept: the TOML and JSON parsers are library functions, `usize` is 64 bits wide, and usage errors do not carry the name of the setting.
- ApplyRequests.LoadAndParse: only the options of `apply` are parsed; the archive, migration and planning commands have parsers of the same form, of which the planning ones are in SourceOptions.
- ExifPayload.PayloadRoundTrips: the reader knows the value types the writer uses.
- FixtureMedia.PngRoundTrips: the reader handles 8-bit RGB images with one data chunk and unfiltered rows.
- The metadata assignment of the import client parses floating-point coordinates and is not part of this model.
- Error classes are those the code distinguishes; exit codes, messages, redacted debug output and help texts are not modelled.
- Regular expressions of the log normalization, evidence checkers, disposable harnesses, process samplers and release scripts: constants and plumbing.

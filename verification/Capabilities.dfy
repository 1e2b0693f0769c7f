/** Endpoints, read clients, probe tokens and the clients that may change a server
    (crates/immich-client/src/endpoint.rs, read.rs, production.rs, network_policy.rs). */
module Capabilities {
  import opened Remote
  import opened Wrappers

  const SUPPORTED_MAJOR := 3
  const SUPPORTED_MINOR := 1
  const MAX_USER_ID_BYTES := 4_096
  const UPLOAD_PLAN_SCHEMA_VERSION := 1
  const UPLOAD_PLAN_SCHEMA_VERSION_V2 := 2

  // ---------------------------------------------------------------- endpoints

  datatype Host = Domain(name: string) | Ipv4(a: nat, b: nat, c: nat, d: nat) | Ipv6(value: nat)

  datatype Url = Url(
    scheme: string,
    username: string,
    password: Option<string>,
    host: Option<Host>,
    port: Option<nat>,
    path: string,
    query: Option<string>,
    fragment: Option<string>)

  datatype Endpoint = Endpoint(origin: Url, loopback: bool)

  datatype EndpointError =
    | InvalidOrigin
    | UnsupportedScheme
    | InsecureRemoteOrigin
    | DisposableRequiresLoopback
    | ProductionReadNotAcknowledged
    | ProductionReadRequiresRemoteHttps

  datatype AccessMode = Disposable | ProductionRead

  /** Library calls left uninterpreted: URL parsing and rendering, SHA-256 in hexadecimal, the
      validation of a plan and its canonical JSON. */
  datatype Trust = Trust(
    parseUrl: string -> Option<Url>,
    renderUrl: Url -> string,
    sha256: string -> string,
    planIsValid: UploadPlan -> bool,
    planJson: UploadPlan -> Option<string>)

  function AsciiLower(text: string): (lower: string)
    ensures |lower| == |text|
  {
    seq(|text|, i requires 0 <= i < |text| =>
      if 'A' <= text[i] <= 'Z' then (text[i] as int - 'A' as int + 'a' as int) as char else text[i])
  }

  predicate IsLoopbackHost(host: Host) {
    match host
    case Domain(name) =>
      var lower := AsciiLower(name);
      || lower == "localhost"
      || (|lower| > |".localhost"| && lower[|lower| - |".localhost"|..] == ".localhost")
    case Ipv4(a, _, _, _) => a == 127
    case Ipv6(value) => value == 1
  }

  function ParseEndpoint(trust: Trust, text: string): Result<Endpoint, EndpointError> {
    match trust.parseUrl(text)
    case None => Err(InvalidOrigin)
    case Some(url) =>
      if |url.username| > 0 || url.password.Some? || url.query.Some? || url.fragment.Some?
         || (url.path != "" && url.path != "/") then Err(InvalidOrigin)
      else
        var loopback := url.host.Some? && IsLoopbackHost(url.host.value);
        if url.scheme == "https" || (url.scheme == "http" && loopback) then
          Ok(Endpoint(url.(path := "/"), loopback))
        else if url.scheme == "http" then Err(InsecureRemoteOrigin)
        else Err(UnsupportedScheme)
  }

  // ---------------------------------------------------------------- which hosts are local

  /** The same letter in either case, or the same character. */
  predicate SameLetter(a: char, b: char) {
    || a == b
    || ('A' <= a <= 'Z' && b as int == a as int + 32)
    || ('A' <= b <= 'Z' && a as int == b as int + 32)
  }

  predicate SameUpToCase(a: string, b: string) {
    |a| == |b| && forall i :: 0 <= i < |a| ==> SameLetter(a[i], b[i])
  }

  /** A name below `localhost`. */
  ghost predicate BelowLocalhost(name: string) {
    exists cut: nat :: 0 < cut < |name| && SameUpToCase(name[cut..], ".localhost")
  }

  /** The hosts that stand for the machine itself: 127.0.0.0/8, ::1, `localhost` and names below it. */
  ghost predicate IsLocal(host: Option<Host>) {
    && host.Some?
    && match host.value
       case Ipv4(first, _, _, _) => first == 127
       case Ipv6(value) => value == 1
       case Domain(name) => SameUpToCase(name, "localhost") || BelowLocalhost(name)
  }

  lemma LowerIsUpToCase(text: string, lower: string)
    requires forall i :: 0 <= i < |lower| ==> !('A' <= lower[i] <= 'Z')
    ensures AsciiLower(text) == lower <==> SameUpToCase(text, lower)
  {
    if SameUpToCase(text, lower) {
      forall i | 0 <= i < |lower| ensures AsciiLower(text)[i] == lower[i] {
        assert SameLetter(text[i], lower[i]);
      }
    }
    if AsciiLower(text) == lower {
      forall i | 0 <= i < |text| ensures SameLetter(text[i], lower[i]) {
        assert AsciiLower(text)[i] == lower[i];
      }
    }
  }

  lemma LowerSuffix(text: string, cut: nat)
    requires cut <= |text|
    ensures AsciiLower(text)[cut..] == AsciiLower(text[cut..])
  {
  }

  /** The flag is set for exactly the local hosts. */
  lemma LoopbackIsLocal(host: Host)
    ensures IsLoopbackHost(host) <==> IsLocal(Some(host))
  {
    if host.Domain? {
      var name, suffix := host.name, ".localhost";
      LowerIsUpToCase(name, "localhost");
      if |name| > |suffix| {
        var cut := |name| - |suffix|;
        LowerSuffix(name, cut);
        LowerIsUpToCase(name[cut..], suffix);
        assert SameUpToCase(name[cut..], suffix) ==> BelowLocalhost(name);
      }
      if BelowLocalhost(name) {
        var cut: nat :| 0 < cut < |name| && SameUpToCase(name[cut..], suffix);
        assert |name| - cut == |suffix|;
      }
      hide AsciiLower, SameUpToCase;
    }
  }

  /** A URL that is an origin and nothing more. */
  predicate IsBareOrigin(url: Url) {
    && url.username == "" && url.password == None && url.query == None && url.fragment == None
    && url.path in {"", "/"}
  }

  /** An address becomes an endpoint exactly when it is a bare origin over HTTPS, or over HTTP to a local
      host. The endpoint is that origin with its host as parsed, and its flag says whether the host is local. */
  lemma EndpointsKeepTheirHost(trust: Trust, address: string)
    ensures var parsed, endpoint := trust.parseUrl(address), ParseEndpoint(trust, address);
      && (endpoint.Ok? <==>
            parsed.Some? && IsBareOrigin(parsed.value)
            && (parsed.value.scheme == "https" || (parsed.value.scheme == "http" && IsLocal(parsed.value.host))))
      && (endpoint.Ok? ==>
            && endpoint.value.origin == parsed.value.(path := "/")
            && (endpoint.value.loopback <==> IsLocal(endpoint.value.origin.host)))
      && (endpoint == Err(InsecureRemoteOrigin) <==>
            parsed.Some? && IsBareOrigin(parsed.value) && parsed.value.scheme == "http" && !IsLocal(parsed.value.host))
  {
    var parsed := trust.parseUrl(address);
    if parsed.Some? && parsed.value.host.Some? {
      LoopbackIsLocal(parsed.value.host.value);
    }
    hide IsLoopbackHost, SameUpToCase, BelowLocalhost;
  }

  function DisposableAccess(endpoint: Endpoint): Result<AccessMode, EndpointError> {
    if endpoint.loopback then Ok(Disposable) else Err(DisposableRequiresLoopback)
  }

  function ProductionReadAccess(endpoint: Endpoint, acknowledged: bool): Result<AccessMode, EndpointError> {
    if !acknowledged then Err(ProductionReadNotAcknowledged)
    else if endpoint.loopback || endpoint.origin.scheme != "https" then Err(ProductionReadRequiresRemoteHttps)
    else Ok(ProductionRead)
  }

  // ---------------------------------------------------------------- plans and confirmations

  datatype Version = Version(major: nat, minor: nat, patch: nat)

  datatype ServerCompatibility = ServerCompatibility(version: Version, identitySha256: string)

  datatype SourceKind = Folder | GoogleTakeout | ApplePhotos | Picasa | Immich

  /** An upload plan, up to what the gates read; `rest` is everything else that is serialized. */
  datatype UploadPlan = UploadPlan(
    schemaVersion: nat,
    sourceKind: SourceKind,
    server: ServerCompatibility,
    operations: seq<string>,
    summaryOperations: nat,
    summaryMaxMutations: nat,
    rest: string)

  datatype Confirmation = Confirmation(planSha256: string, expectedOperations: nat, backupReference: string)

  function PlanSha256(trust: Trust, plan: UploadPlan): Result<string, ErrorClass> {
    if !trust.planIsValid(plan) then Err(Compatibility)
    else if trust.planJson(plan).None? then Err(Protocol)
    else Ok(trust.sha256(trust.planJson(plan).value))
  }

  datatype UploadProof = UploadProof(planSha256: string, expectedOperations: nat, backupReferenceSha256: string) {
    predicate MatchesPlan(trust: Trust, plan: UploadPlan) {
      && PlanSha256(trust, plan) == Ok(planSha256)
      && plan.summaryOperations == expectedOperations
      && |plan.operations| == expectedOperations
    }
  }

  datatype ImportProof = ImportProof(planSha256: string, expectedMutations: nat, backupReferenceSha256: string) {
    predicate MatchesPlan(trust: Trust, plan: UploadPlan) {
      && plan.schemaVersion == UPLOAD_PLAN_SCHEMA_VERSION_V2
      && PlanSha256(trust, plan) == Ok(planSha256)
      && plan.summaryMaxMutations == expectedMutations
    }
  }

  // ---------------------------------------------------------------- clients

  datatype ClientConfig = ClientConfig(
    requestTimeoutNanos: nat,
    maxResponseBytes: nat,
    retryAfterCapNanos: nat,
    uploadBufferBytes: nat) {
    predicate Valid() {
      && requestTimeoutNanos > 0
      && 1_024 <= maxResponseBytes <= 1_024 * 1_024
      && 4 * 1_024 <= uploadBufferBytes <= 4 * 1_024 * 1_024
      && retryAfterCapNanos <= 300 * 1_000_000_000
    }
  }

  datatype ReadClient = ReadClient(endpoint: Endpoint, apiKey: string, config: ClientConfig, access: AccessMode)

  datatype Negotiated = Negotiated(compatibility: ServerCompatibility, originSha256: string)

  datatype UploadClient = UploadClient(read: ReadClient, compatibility: ServerCompatibility, production: bool)

  datatype ImportClient = ImportClient(upload: UploadClient)

  datatype ProductionUploadClient = ProductionUploadClient(upload: UploadClient, proof: UploadProof)

  datatype ProductionImportClient = ProductionImportClient(importer: ImportClient, proof: ImportProof)

  function OriginSha256(trust: Trust, endpoint: Endpoint): string {
    trust.sha256(trust.renderUrl(endpoint.origin))
  }

  /** The five public constructors differ in the access they ask for and in whether addresses were
      pinned; `builds` is whether the HTTP library accepts the configuration. */
  datatype Construction = ForDisposable | ForProductionRead(acknowledged: bool)

  function NewReadClient(trust: Trust, construction: Construction, endpoint: Endpoint, apiKey: string,
                         config: ClientConfig, pinned: Option<string>, builds: bool)
    : Result<ReadClient, ErrorClass>
  {
    var access := match construction
      case ForDisposable => DisposableAccess(endpoint)
      case ForProductionRead(acknowledged) => ProductionReadAccess(endpoint, acknowledged);
    if access.Err? then Err(Compatibility)
    else if !config.Valid() then Err(Protocol)
    else if pinned.Some? && pinned.value != OriginSha256(trust, endpoint) then Err(Protocol)
    else if !builds then Err(Protocol)
    else Ok(ReadClient(endpoint, apiKey, config, access.value))
  }

  datatype VersionResponse = VersionResponse(major: nat, minor: nat, patch: nat, prerelease: Option<nat>)

  /** What the server and the cancellation token answer during one probe. */
  datatype ProbeAnswers = ProbeAnswers(
    cancelledBefore: bool,
    version: Result<VersionResponse, ErrorClass>,
    cancelledBetween: bool,
    userId: Result<string, ErrorClass>,
    userIdBytes: nat)

  function IdentityDigest(trust: Trust, origin: string, userId: string): string {
    trust.sha256(origin + ['\0'] + userId)
  }

  function Probe(trust: Trust, client: ReadClient, answers: ProbeAnswers): Result<Negotiated, ErrorClass> {
    if answers.cancelledBefore then Err(Cancelled)
    else if answers.version.Err? then Err(answers.version.error)
    else
      var version := answers.version.value;
      if version.major != SUPPORTED_MAJOR || version.minor != SUPPORTED_MINOR || version.prerelease.Some? then
        Err(Compatibility)
      else if answers.cancelledBetween then Err(Cancelled)
      else if answers.userId.Err? then Err(answers.userId.error)
      else if |answers.userId.value| == 0 || answers.userIdBytes > MAX_USER_ID_BYTES then Err(Protocol)
      else
        var origin := trust.renderUrl(client.endpoint.origin);
        Ok(Negotiated(
             ServerCompatibility(Version(version.major, version.minor, version.patch),
                                 IdentityDigest(trust, origin, answers.userId.value)),
             trust.sha256(origin)))
  }

  /** A probe succeeds exactly against a supported release with a bounded user id, when nobody cancels, and
      its token names that release and the client's own origin. */
  lemma ProbeAcceptsExactly(trust: Trust, client: ReadClient, answers: ProbeAnswers)
    ensures var token := Probe(trust, client, answers);
      && (token.Ok? <==>
            && !answers.cancelledBefore && !answers.cancelledBetween
            && answers.version.Ok? && answers.version.value.major == 3 && answers.version.value.minor == 1
            && answers.version.value.prerelease == None
            && answers.userId.Ok? && answers.userId.value != "" && answers.userIdBytes <= 4_096)
      && (token.Ok? ==>
            token.value == Negotiated(
              ServerCompatibility(Version(3, 1, answers.version.value.patch),
                                  trust.sha256(trust.renderUrl(client.endpoint.origin) + "\0" + answers.userId.value)),
              trust.sha256(trust.renderUrl(client.endpoint.origin))))
  {
    assert "\0" == ['\0'];
  }

  predicate BoundTo(trust: Trust, client: ReadClient, negotiated: Negotiated) {
    OriginSha256(trust, client.endpoint) == negotiated.originSha256
  }

  function AuthorizeUpload(trust: Trust, client: ReadClient, negotiated: Negotiated): Result<UploadClient, ErrorClass> {
    if client.access != Disposable || !BoundTo(trust, client, negotiated) then Err(Compatibility)
    else Ok(UploadClient(client, negotiated.compatibility, false))
  }

  function AuthorizeImport(trust: Trust, client: ReadClient, negotiated: Negotiated): Result<ImportClient, ErrorClass> {
    match AuthorizeUpload(trust, client, negotiated)
    case Err(error) => Err(error)
    case Ok(upload) => Ok(ImportClient(upload))
  }

  function AuthorizeProductionUpload(trust: Trust, client: ReadClient, negotiated: Negotiated, plan: UploadPlan,
                                     confirmation: Confirmation)
    : Result<ProductionUploadClient, ErrorClass>
  {
    if client.access != ProductionRead || !BoundTo(trust, client, negotiated)
       || negotiated.compatibility != plan.server then Err(Compatibility)
    else
      match PlanSha256(trust, plan)
      case Err(error) => Err(error)
      case Ok(digest) =>
        if confirmation.planSha256 != digest
           || confirmation.expectedOperations != plan.summaryOperations
           || confirmation.expectedOperations != |plan.operations| then Err(Compatibility)
        else
          Ok(ProductionUploadClient(
               UploadClient(client, negotiated.compatibility, true),
               UploadProof(digest, confirmation.expectedOperations, trust.sha256(confirmation.backupReference))))
  }

  function AuthorizeProductionImport(trust: Trust, client: ReadClient, negotiated: Negotiated, plan: UploadPlan,
                                     confirmation: Confirmation)
    : Result<ProductionImportClient, ErrorClass>
  {
    if client.access != ProductionRead || !BoundTo(trust, client, negotiated)
       || negotiated.compatibility != plan.server then Err(Compatibility)
    else
      match PlanSha256(trust, plan)
      case Err(error) => Err(error)
      case Ok(digest) =>
        if confirmation.planSha256 != digest
           || confirmation.expectedOperations != plan.summaryMaxMutations
           || plan.schemaVersion != UPLOAD_PLAN_SCHEMA_VERSION_V2 then Err(Compatibility)
        else
          Ok(ProductionImportClient(
               ImportClient(UploadClient(client, negotiated.compatibility, true)),
               ImportProof(digest, confirmation.expectedOperations, trust.sha256(confirmation.backupReference))))
  }

  // ---------------------------------------------------------------- every sequence of steps

  /** What a program can hold. Read clients and tokens can be cloned, so holding is never lost; each
      object remembers which earlier objects it was made from. */
  datatype Object =
    | Reader(client: ReadClient, construction: Construction)
    | Token(negotiated: Negotiated, reader: nat, userId: string, release: VersionResponse)
    | Uploader(upload: UploadClient, reader: nat, token: nat)
    | Importer(importer: ImportClient, reader: nat, token: nat)
    | ProductionUploader(productionUpload: ProductionUploadClient, reader: nat, token: nat, plan: UploadPlan)
    | ProductionImporter(productionImport: ProductionImportClient, reader: nat, token: nat, plan: UploadPlan)

  datatype Step =
    | Construct(construction: Construction, address: string, apiKey: string, config: ClientConfig,
                pinned: Option<string>, builds: bool)
    | Negotiate(reader: nat, answers: ProbeAnswers)
    | GrantUpload(reader: nat, token: nat)
    | GrantImport(reader: nat, token: nat)
    | GrantProductionUpload(reader: nat, token: nat, plan: UploadPlan, confirmation: Confirmation)
    | GrantProductionImport(reader: nat, token: nat, plan: UploadPlan, confirmation: Confirmation)

  predicate HoldsReader(held: seq<Object>, i: nat) {
    i < |held| && held[i].Reader?
  }

  predicate HoldsToken(held: seq<Object>, i: nat) {
    i < |held| && held[i].Token?
  }

  /** The object a step makes, if its call succeeds. */
  function Made(trust: Trust, held: seq<Object>, step: Step): Option<Object> {
    match step
    case Construct(construction, address, apiKey, config, pinned, builds) =>
      var endpoint := ParseEndpoint(trust, address);
      if endpoint.Err? then None
      else
        var client := NewReadClient(trust, construction, endpoint.value, apiKey, config, pinned, builds);
        if client.Err? then None else Some(Reader(client.value, construction))
    case Negotiate(reader, answers) =>
      if !HoldsReader(held, reader) then None
      else
        var negotiated := Probe(trust, held[reader].client, answers);
        if negotiated.Err? then None else Some(Token(negotiated.value, reader, answers.userId.value, answers.version.value))
    case GrantUpload(reader, token) =>
      if !HoldsReader(held, reader) || !HoldsToken(held, token) then None
      else
        var granted := AuthorizeUpload(trust, held[reader].client, held[token].negotiated);
        if granted.Err? then None else Some(Uploader(granted.value, reader, token))
    case GrantImport(reader, token) =>
      if !HoldsReader(held, reader) || !HoldsToken(held, token) then None
      else
        var granted := AuthorizeImport(trust, held[reader].client, held[token].negotiated);
        if granted.Err? then None else Some(Importer(granted.value, reader, token))
    case GrantProductionUpload(reader, token, plan, confirmation) =>
      if !HoldsReader(held, reader) || !HoldsToken(held, token) then None
      else
        var granted := AuthorizeProductionUpload(trust, held[reader].client, held[token].negotiated, plan, confirmation);
        if granted.Err? then None else Some(ProductionUploader(granted.value, reader, token, plan))
    case GrantProductionImport(reader, token, plan, confirmation) =>
      if !HoldsReader(held, reader) || !HoldsToken(held, token) then None
      else
        var granted := AuthorizeProductionImport(trust, held[reader].client, held[token].negotiated, plan, confirmation);
        if granted.Err? then None else Some(ProductionImporter(granted.value, reader, token, plan))
  }

  function Take(trust: Trust, held: seq<Object>, step: Step): seq<Object> {
    var made := Made(trust, held, step);
    if made.None? then held else held + [made.value]
  }

  function Reach(trust: Trust, steps: seq<Step>): seq<Object> {
    if |steps| == 0 then [] else Take(trust, Reach(trust, steps[..|steps| - 1]), steps[|steps| - 1])
  }

  /** A read client is for a loopback endpoint, or acknowledged for a remote HTTPS one. */
  ghost predicate SoundReader(it: Object)
    requires it.Reader?
  {
    var client := it.client;
    && client.config.Valid()
    && (client.endpoint.origin.scheme == "https" || (client.endpoint.origin.scheme == "http" && client.endpoint.loopback))
    && client.endpoint.origin.username == "" && client.endpoint.origin.password.None?
    && (client.endpoint.loopback <==> IsLocal(client.endpoint.origin.host))
    && (client.access == Disposable ==> client.endpoint.loopback && it.construction.ForDisposable?)
    && (client.access == ProductionRead ==>
          && !client.endpoint.loopback && client.endpoint.origin.scheme == "https"
          && it.construction == ForProductionRead(true))
  }

  /** A token names the origin of the client that probed, and its user. */
  ghost predicate SoundToken(trust: Trust, held: seq<Object>, token: nat)
    requires HoldsToken(held, token)
  {
    && HoldsReader(held, held[token].reader)
    && var origin := trust.renderUrl(held[held[token].reader].client.endpoint.origin);
    && held[token].negotiated.originSha256 == trust.sha256(origin)
    && held[token].negotiated.compatibility.identitySha256 == IdentityDigest(trust, origin, held[token].userId)
    && held[token].release.major == SUPPORTED_MAJOR && held[token].release.minor == SUPPORTED_MINOR
    && held[token].release.prerelease == None
    && held[token].negotiated.compatibility.version
       == Version(held[token].release.major, held[token].release.minor, held[token].release.patch)
  }

  /** The upload client was made from that reader and that token, and they agree on the origin. */
  ghost predicate MadeFrom(trust: Trust, held: seq<Object>, upload: UploadClient, reader: nat, token: nat) {
    && HoldsReader(held, reader) && HoldsToken(held, token)
    && upload.read == held[reader].client
    && upload.compatibility == held[token].negotiated.compatibility
    && BoundTo(trust, upload.read, held[token].negotiated)
  }

  /** A disposable client acts on the machine itself. */
  ghost predicate DisposableShape(upload: UploadClient) {
    && !upload.production
    && upload.read.access == Disposable
    && IsLocal(upload.read.endpoint.origin.host)
  }

  /** A production client acts on another machine, over HTTPS, on the server its plan was made for. */
  ghost predicate ProductionShape(upload: UploadClient, plan: UploadPlan) {
    && upload.production
    && upload.read.access == ProductionRead
    && !IsLocal(upload.read.endpoint.origin.host)
    && upload.read.endpoint.origin.scheme == "https"
    && upload.compatibility == plan.server
  }

  /** What every object a program can hold satisfies. */
  ghost predicate Sound(trust: Trust, held: seq<Object>, i: nat)
    requires i < |held|
  {
    match held[i]
    case Reader(_, _) => SoundReader(held[i])
    case Token(_, _, _, _) => SoundToken(trust, held, i)
    case Uploader(upload, reader, token) => MadeFrom(trust, held, upload, reader, token) && DisposableShape(upload)
    case Importer(importer, reader, token) =>
      MadeFrom(trust, held, importer.upload, reader, token) && DisposableShape(importer.upload)
    case ProductionUploader(client, reader, token, plan) =>
      && MadeFrom(trust, held, client.upload, reader, token)
      && ProductionShape(client.upload, plan)
      && client.proof.MatchesPlan(trust, plan)
    case ProductionImporter(client, reader, token, plan) =>
      && MadeFrom(trust, held, client.importer.upload, reader, token)
      && ProductionShape(client.importer.upload, plan)
      && client.proof.MatchesPlan(trust, plan)
  }

  ghost predicate AllSound(trust: Trust, held: seq<Object>) {
    forall i :: 0 <= i < |held| ==> Sound(trust, held, i)
  }

  lemma SoundStays(trust: Trust, held: seq<Object>, more: Object, i: nat)
    requires i < |held| && Sound(trust, held, i)
    ensures Sound(trust, held + [more], i)
  {
    hide ProductionShape, DisposableShape, BoundTo, UploadProof.MatchesPlan, ImportProof.MatchesPlan, IdentityDigest;
  }

  lemma ConstructedIsSound(trust: Trust, held: seq<Object>, step: Step)
    requires step.Construct? && Made(trust, held, step).Some?
    ensures Sound(trust, held + [Made(trust, held, step).value], |held|)
  {
    EndpointsKeepTheirHost(trust, step.address);
    hide ParseEndpoint, IsLocal, ClientConfig.Valid;
  }

  lemma NegotiatedIsSound(trust: Trust, held: seq<Object>, step: Step)
    requires step.Negotiate? && Made(trust, held, step).Some?
    ensures Sound(trust, held + [Made(trust, held, step).value], |held|)
  {
  }

  lemma GrantedIsSound(trust: Trust, held: seq<Object>, step: Step)
    requires AllSound(trust, held) && !step.Construct? && !step.Negotiate? && Made(trust, held, step).Some?
    ensures Sound(trust, held + [Made(trust, held, step).value], |held|)
  {
    hide IsLocal, ParseEndpoint, ClientConfig.Valid, PlanSha256, IdentityDigest;
    assert Sound(trust, held, step.reader);
    assert Sound(trust, held, step.token);
  }

  /** One step keeps every object sound. */
  lemma StepKeepsSound(trust: Trust, held: seq<Object>, step: Step)
    requires AllSound(trust, held)
    ensures AllSound(trust, Take(trust, held, step))
  {
    hide Sound, Made;
    var made := Made(trust, held, step);
    if made.Some? {
      var longer := held + [made.value];
      if step.Construct? {
        ConstructedIsSound(trust, held, step);
      } else if step.Negotiate? {
        NegotiatedIsSound(trust, held, step);
      } else {
        GrantedIsSound(trust, held, step);
      }
      forall i | 0 <= i < |longer| ensures Sound(trust, longer, i) {
        if i < |held| {
          SoundStays(trust, held, made.value, i);
        }
      }
    }
  }

  /** Over every sequence of steps, everything a program holds is sound: each client that may change
      a server is disposable on a loopback endpoint, or acknowledged for a remote HTTPS endpoint and
      bound to a plan whose server is the probed one. */
  lemma {:induction false} EveryHeldObjectIsSound(trust: Trust, steps: seq<Step>)
    ensures AllSound(trust, Reach(trust, steps))
  {
    if |steps| > 0 {
      EveryHeldObjectIsSound(trust, steps[..|steps| - 1]);
      StepKeepsSound(trust, Reach(trust, steps[..|steps| - 1]), steps[|steps| - 1]);
    }
  }

  /** The upload client inside an object that may change a server. */
  function Capability(held: Object): Option<UploadClient> {
    match held
    case Reader(_, _) => None
    case Token(_, _, _, _) => None
    case Uploader(upload, _, _) => Some(upload)
    case Importer(importer, _, _) => Some(importer.upload)
    case ProductionUploader(client, _, _, _) => Some(client.upload)
    case ProductionImporter(client, _, _, _) => Some(client.importer.upload)
  }

  /** No sequence of steps turns a production read client into a disposable uploader or importer, or a
      disposable one into a production client: the constructor that was called decides. */
  lemma CapabilitiesKeepTheirConstruction(trust: Trust, steps: seq<Step>, i: nat)
    requires i < |Reach(trust, steps)| && Capability(Reach(trust, steps)[i]).Some?
    ensures var held := Reach(trust, steps);
      var upload := Capability(held[i]).value;
      && HoldsReader(held, held[i].reader) && HoldsToken(held, held[i].token)
      && upload.read == held[held[i].reader].client
      && upload.compatibility == held[held[i].token].negotiated.compatibility
      && (upload.production <==> held[i].ProductionUploader? || held[i].ProductionImporter?)
      && held[held[i].reader].construction == (if upload.production then ForProductionRead(true) else ForDisposable)
      && (IsLocal(upload.read.endpoint.origin.host) <==> !upload.production)
  {
    hide Reach, ParseEndpoint, PlanSha256, IdentityDigest, ClientConfig.Valid, IsLocal;
    EveryHeldObjectIsSound(trust, steps);
    var held := Reach(trust, steps);
    assert Sound(trust, held, i);
    assert Sound(trust, held, held[i].reader);
  }

  ghost predicate Injective(f: string -> string) {
    forall a, b :: f(a) == f(b) ==> a == b
  }

  lemma SplitAtNul(first: string, second: string, first': string, second': string)
    requires '\0' !in first && '\0' !in first'
    requires first + ['\0'] + second == first' + ['\0'] + second'
    ensures first == first' && second == second'
  {
    var text := first + ['\0'] + second;
    assert text[|first|] == '\0' && text[|first'|] == '\0';
    assert forall i :: 0 <= i < |first| ==> text[i] == first[i];
    assert forall i :: 0 <= i < |first'| ==> text[i] == first'[i];
    assert |first| == |first'|;
    assert first == text[..|first|] && first' == text[..|first'|];
    assert second == text[|first| + 1..] && second' == text[|first'| + 1..];
  }

  /** A capability acts on the origin whose digest its own token holds; if SHA-256 has no collisions, the
      identity it carries is that of this origin and the token's user. */
  lemma CapabilityOrigin(trust: Trust, steps: seq<Step>, i: nat)
    requires i < |Reach(trust, steps)| && Capability(Reach(trust, steps)[i]).Some?
    ensures var held := Reach(trust, steps);
      var upload := Capability(held[i]).value;
      && HoldsToken(held, held[i].token)
      && held[held[i].token].negotiated.originSha256 == OriginSha256(trust, upload.read.endpoint)
      && upload.compatibility == held[held[i].token].negotiated.compatibility
      && (Injective(trust.sha256) ==>
            upload.compatibility.identitySha256
            == IdentityDigest(trust, trust.renderUrl(upload.read.endpoint.origin), held[held[i].token].userId))
  {
    hide Reach, ParseEndpoint, PlanSha256, IdentityDigest, ClientConfig.Valid, IsLocal;
    EveryHeldObjectIsSound(trust, steps);
    var held := Reach(trust, steps);
    assert Sound(trust, held, i);
    assert Sound(trust, held, held[i].token);
  }

  /** If SHA-256 has no collisions and origins hold no NUL, all production clients for plans with the
      same server facts act on the same origin for the same user, however they were obtained. */
  lemma PlanServerPinsOriginAndUser(trust: Trust, steps: seq<Step>, i: nat, j: nat)
    requires Injective(trust.sha256) && forall url :: '\0' !in trust.renderUrl(url)
    requires var held := Reach(trust, steps);
      && i < |held| && j < |held|
      && (held[i].ProductionUploader? || held[i].ProductionImporter?)
      && (held[j].ProductionUploader? || held[j].ProductionImporter?)
      && held[i].plan.server == held[j].plan.server
    ensures var held := Reach(trust, steps);
      && Capability(held[i]).Some? && Capability(held[j]).Some?
      && HoldsToken(held, held[i].token) && HoldsToken(held, held[j].token)
      && trust.renderUrl(Capability(held[i]).value.read.endpoint.origin)
         == trust.renderUrl(Capability(held[j]).value.read.endpoint.origin)
      && held[held[i].token].userId == held[held[j].token].userId
  {
    hide Reach, ParseEndpoint, PlanSha256, ClientConfig.Valid;
    EveryHeldObjectIsSound(trust, steps);
    CapabilityOrigin(trust, steps, i);
    CapabilityOrigin(trust, steps, j);
    var held := Reach(trust, steps);
    assert Sound(trust, held, i) && Sound(trust, held, j);
    var first, second := Capability(held[i]).value.read.endpoint.origin, Capability(held[j]).value.read.endpoint.origin;
    SplitAtNul(trust.renderUrl(first), held[held[i].token].userId,
               trust.renderUrl(second), held[held[j].token].userId);
  }
}

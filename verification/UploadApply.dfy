/** The offline gate and the routing of crates/immich-application/src/upload_apply.rs, with
    `ProductionWriteConfirmation` of crates/immich-core/src/production.rs. */
module UploadApply {
  import opened Capabilities
  import opened Remote
  import opened Text
  import opened Wrappers

  const MAX_BACKUP_REFERENCE_BYTES := 256

  // ---------------------------------------------------------------- confirmations

  datatype ConfirmationError = NotAcknowledged | InvalidPlanDigest | InvalidOperationCount | InvalidBackupReference

  predicate IsLowerSha256(value: string) {
    |value| == 64 && forall i :: 0 <= i < 64 ==> '0' <= value[i] <= '9' || 'a' <= value[i] <= 'f'
  }

  /** The characters `str::trim` strips. */
  predicate IsWhitespace(c: char) {
    var n := c as int;
    || 0x09 <= n <= 0x0D || n == 0x20 || n == 0x85 || n == 0xA0 || n == 0x1680 || 0x2000 <= n <= 0x200A
    || n == 0x2028 || n == 0x2029 || n == 0x202F || n == 0x205F || n == 0x3000
  }

  /** A text equals its trimmed form when neither end is white space. */
  predicate IsTrimmed(value: string) {
    |value| == 0 || (!IsWhitespace(value[0]) && !IsWhitespace(value[|value| - 1]))
  }

  function NewConfirmation(acknowledged: bool, planSha256: string, expectedOperations: nat, backupReference: string)
    : Result<Confirmation, ConfirmationError>
  {
    if !acknowledged then Err(NotAcknowledged)
    else if !IsLowerSha256(planSha256) then Err(InvalidPlanDigest)
    else if expectedOperations == 0 then Err(InvalidOperationCount)
    else if |backupReference| == 0 || Utf8Length(backupReference) > MAX_BACKUP_REFERENCE_BYTES
         || !IsTrimmed(backupReference) || exists i :: 0 <= i < |backupReference| && IsControl(backupReference[i]) then
      Err(InvalidBackupReference)
    else Ok(Confirmation(planSha256, expectedOperations, backupReference))
  }

  // ---------------------------------------------------------------- the offline gate

  datatype WriteRequest = WriteRequest(planSha256: string, expectedOperations: nat, backupReference: string)

  datatype Prepared = Prepared(plan: UploadPlan, production: Option<Confirmation>) {
    predicate IsProduction() {
      production.Some?
    }
  }

  datatype ApplicationError = InvalidApply(message: string) | Client(class_: ErrorClass)

  function ValidateConfirmation(trust: Trust, request: Option<WriteRequest>, plan: UploadPlan)
    : Result<Option<Confirmation>, ApplicationError>
  {
    if request.None? then Ok(None)
    else
      var confirmation := NewConfirmation(true, request.value.planSha256, request.value.expectedOperations,
                                          request.value.backupReference);
      if confirmation.Err? then Err(InvalidApply("invalid production confirmation"))
      else
        var digest := PlanSha256(trust, plan);
        if digest.Err? then Err(InvalidApply("invalid production upload plan"))
        else
          var expected := if plan.schemaVersion == UPLOAD_PLAN_SCHEMA_VERSION_V2 then plan.summaryMaxMutations
                          else plan.summaryOperations;
          if confirmation.value.planSha256 == digest.value
             && confirmation.value.expectedOperations == expected
             && (plan.schemaVersion != UPLOAD_PLAN_SCHEMA_VERSION
                 || confirmation.value.expectedOperations == |plan.operations|)
          then Ok(Some(confirmation.value))
          else Err(InvalidApply("production confirmation does not match upload plan"))
  }

  function PrepareUploadApply(trust: Trust, plan: UploadPlan, request: Option<WriteRequest>)
    : Result<Prepared, ApplicationError>
  {
    if plan.schemaVersion != UPLOAD_PLAN_SCHEMA_VERSION && plan.schemaVersion != UPLOAD_PLAN_SCHEMA_VERSION_V2 then
      Err(InvalidApply("apply upload does not support this plan schema"))
    else
      match ValidateConfirmation(trust, request, plan)
      case Err(error) => Err(error)
      case Ok(confirmation) => Ok(Prepared(plan, confirmation))
  }

  // ---------------------------------------------------------------- routing

  datatype Adapter = FolderAdapter | TakeoutAdapter | AppleAdapter | PicasaAdapter

  /** The executor entry that is called, with the client it is given. */
  datatype ExecutorCall =
    | Upload(client: UploadClient)
    | ProductionUpload(productionUpload: ProductionUploadClient)
    | Import(adapter: Adapter, importer: ImportClient)
    | ProductionImport(adapter: Adapter, productionImport: ProductionImportClient)

  predicate CallsProduction(call: ExecutorCall) {
    call.ProductionUpload? || call.ProductionImport?
  }

  function ApplyFolder(trust: Trust, prepared: Prepared, inputs: nat, client: ReadClient, negotiated: Negotiated)
    : Result<ExecutorCall, ApplicationError>
  {
    if inputs != 1 then Err(InvalidApply("folder apply requires exactly one source"))
    else if prepared.production.Some? then
      match AuthorizeProductionUpload(trust, client, negotiated, prepared.plan, prepared.production.value)
      case Err(error) => Err(Client(error))
      case Ok(granted) => Ok(ProductionUpload(granted))
    else
      match AuthorizeUpload(trust, client, negotiated)
      case Err(error) => Err(Client(error))
      case Ok(granted) => Ok(Upload(granted))
  }

  function ApplyImport(trust: Trust, prepared: Prepared, client: ReadClient, negotiated: Negotiated)
    : Result<ExecutorCall, ApplicationError>
  {
    match prepared.plan.sourceKind
    case GoogleTakeout => ImportWith(trust, prepared, client, negotiated, TakeoutAdapter)
    case ApplePhotos => ImportWith(trust, prepared, client, negotiated, AppleAdapter)
    case Picasa => ImportWith(trust, prepared, client, negotiated, PicasaAdapter)
    case Immich => Err(InvalidApply("Immich migration plans require the migration command"))
    case Folder => Err(InvalidApply("unsupported import source kind"))
  }

  function ImportWith(trust: Trust, prepared: Prepared, client: ReadClient, negotiated: Negotiated, adapter: Adapter)
    : Result<ExecutorCall, ApplicationError>
  {
    if prepared.production.Some? then
      match AuthorizeProductionImport(trust, client, negotiated, prepared.plan, prepared.production.value)
      case Err(error) => Err(Client(error))
      case Ok(granted) => Ok(ProductionImport(adapter, granted))
    else
      match AuthorizeImport(trust, client, negotiated)
      case Err(error) => Err(Client(error))
      case Ok(granted) => Ok(Import(adapter, granted))
  }

  /** `apply_prepared_upload` up to the executor; `inputs` is how many sources were given. */
  function ApplyPreparedUpload(trust: Trust, prepared: Prepared, inputs: nat, client: ReadClient, answers: ProbeAnswers)
    : Result<ExecutorCall, ApplicationError>
  {
    match Probe(trust, client, answers)
    case Err(error) => Err(Client(error))
    case Ok(negotiated) =>
      if negotiated.compatibility != prepared.plan.server then Err(InvalidApply("server does not match upload plan"))
      else if prepared.plan.schemaVersion == UPLOAD_PLAN_SCHEMA_VERSION_V2 then
        ApplyImport(trust, prepared, client, negotiated)
      else ApplyFolder(trust, prepared, inputs, client, negotiated)
  }

  // ---------------------------------------------------------------- the gates agree

  /** What the offline gate has already established about an accepted confirmation. */
  lemma AcceptedConfirmation(trust: Trust, plan: UploadPlan, request: Option<WriteRequest>)
    requires PrepareUploadApply(trust, plan, request).Ok?
    requires PrepareUploadApply(trust, plan, request).value.IsProduction()
    ensures var confirmation := PrepareUploadApply(trust, plan, request).value.production.value;
      && PlanSha256(trust, plan) == Ok(confirmation.planSha256)
      && NewConfirmation(true, confirmation.planSha256, confirmation.expectedOperations, confirmation.backupReference)
         == Ok(confirmation)
      && request.Some? && confirmation.backupReference == request.value.backupReference
      && 0 < |confirmation.backupReference| && Utf8Length(confirmation.backupReference) <= MAX_BACKUP_REFERENCE_BYTES
      && IsTrimmed(confirmation.backupReference)
      && (forall i :: 0 <= i < |confirmation.backupReference| ==> !IsControl(confirmation.backupReference[i]))
      && confirmation.expectedOperations > 0
      && (plan.schemaVersion == UPLOAD_PLAN_SCHEMA_VERSION_V2 ==>
            confirmation.expectedOperations == plan.summaryMaxMutations)
      && (plan.schemaVersion != UPLOAD_PLAN_SCHEMA_VERSION_V2 ==>
            && plan.schemaVersion == UPLOAD_PLAN_SCHEMA_VERSION
            && confirmation.expectedOperations == plan.summaryOperations
            && confirmation.expectedOperations == |plan.operations|)
  {
    hide IsLowerSha256, IsTrimmed, Utf8Length, IsControl;
  }

  /** The confirmation checks of the routed authorize call cannot fail after the offline gate: the call
      is refused exactly when the client is not a production client bound to the probed server and
      the plan's server. */
  lemma OfflineGateImpliesAuthorization(trust: Trust, plan: UploadPlan, request: Option<WriteRequest>,
                                        client: ReadClient, negotiated: Negotiated)
    requires PrepareUploadApply(trust, plan, request).Ok?
    requires PrepareUploadApply(trust, plan, request).value.IsProduction()
    ensures var confirmation := PrepareUploadApply(trust, plan, request).value.production.value;
      var admitted := client.access == ProductionRead && BoundTo(trust, client, negotiated)
                      && negotiated.compatibility == plan.server;
      if plan.schemaVersion == UPLOAD_PLAN_SCHEMA_VERSION_V2 then
        var granted := AuthorizeProductionImport(trust, client, negotiated, plan, confirmation);
        && (granted.Ok? <==> admitted)
        && (granted.Ok? ==> granted.value.proof.MatchesPlan(trust, plan))
      else
        var granted := AuthorizeProductionUpload(trust, client, negotiated, plan, confirmation);
        && (granted.Ok? <==> admitted)
        && (granted.Ok? ==> granted.value.proof.MatchesPlan(trust, plan))
  {
    hide PrepareUploadApply, PlanSha256, BoundTo;
    AcceptedConfirmation(trust, plan, request);
  }

  /** Two plans that match one proof have the same digest; if neither SHA-256 nor the JSON form
      confuses plans, they are the same plan. */
  lemma ProofsPinOnePlan(trust: Trust, proof: UploadProof, plan: UploadPlan, other: UploadPlan)
    requires proof.MatchesPlan(trust, plan) && proof.MatchesPlan(trust, other)
    ensures PlanSha256(trust, plan) == PlanSha256(trust, other)
    ensures plan.summaryOperations == other.summaryOperations && |plan.operations| == |other.operations|
    ensures Injective(trust.sha256) && (forall a, b :: trust.planJson(a) == trust.planJson(b) ==> a == b) ==>
            plan == other
  {
    if Injective(trust.sha256) {
      assert trust.sha256(trust.planJson(plan).value) == trust.sha256(trust.planJson(other).value);
    }
  }

  lemma ImportProofsPinOnePlan(trust: Trust, proof: ImportProof, plan: UploadPlan, other: UploadPlan)
    requires proof.MatchesPlan(trust, plan) && proof.MatchesPlan(trust, other)
    ensures PlanSha256(trust, plan) == PlanSha256(trust, other)
    ensures plan.summaryMaxMutations == other.summaryMaxMutations && plan.schemaVersion == other.schemaVersion
    ensures Injective(trust.sha256) && (forall a, b :: trust.planJson(a) == trust.planJson(b) ==> a == b) ==>
            plan == other
  {
    if Injective(trust.sha256) {
      assert trust.sha256(trust.planJson(plan).value) == trust.sha256(trust.planJson(other).value);
    }
  }

  /** The upload client inside the call. */
  function CallClient(call: ExecutorCall): UploadClient {
    match call
    case Upload(client) => client
    case ProductionUpload(granted) => granted.upload
    case Import(_, importer) => importer.upload
    case ProductionImport(_, granted) => granted.importer.upload
  }

  function AdapterOf(kind: SourceKind): Option<Adapter> {
    match kind
    case Folder => None
    case GoogleTakeout => Some(TakeoutAdapter)
    case ApplePhotos => Some(AppleAdapter)
    case Picasa => Some(PicasaAdapter)
    case Immich => None
  }

  /** Whatever reaches an executor runs in production form exactly when a confirmation was prepared,
      through a client of the plan's own server, with the adapter of the plan's source, and in
      production with a proof of that very plan. */
  lemma ExecutorRunsAsPrepared(trust: Trust, plan: UploadPlan, request: Option<WriteRequest>, inputs: nat,
                               client: ReadClient, answers: ProbeAnswers)
    requires PrepareUploadApply(trust, plan, request).Ok?
    ensures var prepared := PrepareUploadApply(trust, plan, request).value;
      var applied := ApplyPreparedUpload(trust, prepared, inputs, client, answers);
      applied.Ok? ==>
        && (CallsProduction(applied.value) <==> prepared.IsProduction())
        && (prepared.IsProduction() <==> request.Some?)
        && (CallsProduction(applied.value) <==> CallClient(applied.value).production)
        && (CallsProduction(applied.value) <==> client.access == ProductionRead)
        && CallClient(applied.value).read == client
        && CallClient(applied.value).compatibility == plan.server
        && (applied.value.Upload? || applied.value.ProductionUpload? <==>
              plan.schemaVersion == UPLOAD_PLAN_SCHEMA_VERSION)
        && (applied.value.Import? || applied.value.ProductionImport? ==>
              AdapterOf(plan.sourceKind) == Some(applied.value.adapter))
        && (applied.value.ProductionUpload? ==> applied.value.productionUpload.proof.MatchesPlan(trust, plan))
        && (applied.value.ProductionImport? ==> applied.value.productionImport.proof.MatchesPlan(trust, plan))
  {
    hide PlanSha256, PrepareUploadApply, Probe;
    PreparedAsAsked(trust, plan, request);
    PreparedSchema(trust, plan, request);
  }

  lemma PreparedSchema(trust: Trust, plan: UploadPlan, request: Option<WriteRequest>)
    requires PrepareUploadApply(trust, plan, request).Ok?
    ensures plan.schemaVersion == UPLOAD_PLAN_SCHEMA_VERSION || plan.schemaVersion == UPLOAD_PLAN_SCHEMA_VERSION_V2
  {
  }

  /** A run gets through exactly when the probe does and the client is of the kind that was prepared
      for; the confirmation itself adds no way to fail. */
  lemma WhenExecutorIsReached(trust: Trust, plan: UploadPlan, request: Option<WriteRequest>, inputs: nat,
                              client: ReadClient, answers: ProbeAnswers)
    requires PrepareUploadApply(trust, plan, request).Ok?
    ensures var prepared := PrepareUploadApply(trust, plan, request).value;
      var probed := Probe(trust, client, answers);
      ApplyPreparedUpload(trust, prepared, inputs, client, answers).Ok? <==>
        && probed.Ok?
        && probed.value.compatibility == plan.server
        && client.access == (if request.Some? then ProductionRead else Disposable)
        && (if plan.schemaVersion == UPLOAD_PLAN_SCHEMA_VERSION_V2 then AdapterOf(plan.sourceKind).Some? else inputs == 1)
  {
    hide PrepareUploadApply, PlanSha256;
    var prepared := PrepareUploadApply(trust, plan, request).value;
    PreparedAsAsked(trust, plan, request);
    var probed := Probe(trust, client, answers);
    if probed.Ok? {
      assert BoundTo(trust, client, probed.value);
      if prepared.IsProduction() {
        OfflineGateImpliesAuthorization(trust, plan, request, client, probed.value);
      }
    }
  }

  lemma PreparedAsAsked(trust: Trust, plan: UploadPlan, request: Option<WriteRequest>)
    requires PrepareUploadApply(trust, plan, request).Ok?
    ensures PrepareUploadApply(trust, plan, request).value.plan == plan
    ensures PrepareUploadApply(trust, plan, request).value.IsProduction() <==> request.Some?
  {
    hide PlanSha256, NewConfirmation;
  }
}

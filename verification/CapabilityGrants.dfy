/** When each client and each write permission is granted, and what it is then made of, stated over the
    fields of what was given. */
module CapabilityGrants {
  import opened Capabilities
  import opened Remote
  import opened Text
  import opened UploadApply
  import opened Wrappers

  // ---------------------------------------------------------------- read clients

  /** The timeout is positive and each bound is within its range. */
  predicate IsBounded(config: ClientConfig) {
    && config.requestTimeoutNanos >= 1
    && 1024 <= config.maxResponseBytes <= 1048576
    && 4096 <= config.uploadBufferBytes <= 4194304
    && config.retryAfterCapNanos <= 300000000000
  }

  lemma BoundedExactly(config: ClientConfig)
    ensures config.Valid() <==> IsBounded(config)
  {
  }

  /** The address is a bare origin: on this machine for a disposable client; elsewhere, over HTTPS and
      acknowledged, for a production client. */
  ghost predicate Permits(construction: Construction, url: Url) {
    && IsBareOrigin(url)
    && match construction
       case ForDisposable => IsLocal(url.host) && url.scheme in {"http", "https"}
       case ForProductionRead(acknowledged) => acknowledged && !IsLocal(url.host) && url.scheme == "https"
  }

  lemma AccessExactly(trust: Trust, construction: Construction, address: string)
    ensures var parsed, endpoint := trust.parseUrl(address), ParseEndpoint(trust, address);
      && (endpoint.Ok? && (if construction.ForDisposable? then DisposableAccess(endpoint.value).Ok?
                           else ProductionReadAccess(endpoint.value, construction.acknowledged).Ok?) <==>
          parsed.Some? && Permits(construction, parsed.value))
      && (parsed.Some? && Permits(construction, parsed.value) ==>
            endpoint == Ok(Endpoint(parsed.value.(path := "/"), construction.ForDisposable?)))
  {
    EndpointsKeepTheirHost(trust, address);
    hide ParseEndpoint, IsLocal, IsBareOrigin;
  }

  /** A read client is made exactly for a permitted address, a bounded configuration, the pinned origin if
      there is one, and a library that builds; it then holds just what it was given. */
  lemma ReadersAreMadeExactly(trust: Trust, held: seq<Object>, construction: Construction, address: string,
                              apiKey: string, config: ClientConfig, pinned: Option<string>, builds: bool)
    ensures var parsed := trust.parseUrl(address);
      var made := Made(trust, held, Construct(construction, address, apiKey, config, pinned, builds));
      && (made.Some? <==>
            && parsed.Some? && Permits(construction, parsed.value) && IsBounded(config) && builds
            && (pinned.Some? ==> pinned.value == trust.sha256(trust.renderUrl(parsed.value.(path := "/")))))
      && (made.Some? ==>
            made.value == Reader(ReadClient(Endpoint(parsed.value.(path := "/"), construction.ForDisposable?), apiKey, config,
                                            if construction.ForDisposable? then Disposable else ProductionRead),
                                 construction))
  {
    AccessExactly(trust, construction, address);
    BoundedExactly(config);
    hide ParseEndpoint, Permits, IsBounded, ClientConfig.Valid;
  }

  // ---------------------------------------------------------------- write permissions

  /** The token was issued for the origin of the client. */
  predicate IsForOrigin(trust: Trust, client: ReadClient, negotiated: Negotiated) {
    negotiated.originSha256 == trust.sha256(trust.renderUrl(client.endpoint.origin))
  }

  /** The plan is valid and its canonical JSON hashes to the digest. */
  predicate HasDigest(trust: Trust, plan: UploadPlan, digest: string) {
    && trust.planIsValid(plan) && trust.planJson(plan).Some?
    && digest == trust.sha256(trust.planJson(plan).value)
  }

  lemma DigestExactly(trust: Trust, plan: UploadPlan, digest: string)
    ensures PlanSha256(trust, plan) == Ok(digest) <==> HasDigest(trust, plan, digest)
  {
  }

  /** A disposable client may upload, and import, exactly with a token for its own origin. */
  lemma DisposableGrantsExactly(trust: Trust, client: ReadClient, negotiated: Negotiated)
    ensures var upload, importer := AuthorizeUpload(trust, client, negotiated), AuthorizeImport(trust, client, negotiated);
      var admitted := client.access == Disposable && IsForOrigin(trust, client, negotiated);
      && (upload.Ok? <==> admitted) && (importer.Ok? <==> admitted)
      && (admitted ==>
            && upload == Ok(UploadClient(client, negotiated.compatibility, false))
            && importer == Ok(ImportClient(UploadClient(client, negotiated.compatibility, false))))
  {
  }

  /** A production client may upload exactly with a token for its own origin and for the plan's server, and
      a confirmation of that plan's digest and of all its operations. */
  lemma ProductionUploadGrantedExactly(trust: Trust, client: ReadClient, negotiated: Negotiated, plan: UploadPlan,
                                       confirmation: Confirmation)
    ensures var granted := AuthorizeProductionUpload(trust, client, negotiated, plan, confirmation);
      && (granted.Ok? <==>
            && client.access == ProductionRead && IsForOrigin(trust, client, negotiated)
            && negotiated.compatibility == plan.server
            && HasDigest(trust, plan, confirmation.planSha256)
            && confirmation.expectedOperations == plan.summaryOperations == |plan.operations|)
      && (granted.Ok? ==>
            granted.value == ProductionUploadClient(
              UploadClient(client, negotiated.compatibility, true),
              UploadProof(confirmation.planSha256, confirmation.expectedOperations,
                          trust.sha256(confirmation.backupReference))))
  {
    DigestExactly(trust, plan, confirmation.planSha256);
  }

  /** The same for an import, whose plan is of the second schema and whose confirmation counts mutations. */
  lemma ProductionImportGrantedExactly(trust: Trust, client: ReadClient, negotiated: Negotiated, plan: UploadPlan,
                                       confirmation: Confirmation)
    ensures var granted := AuthorizeProductionImport(trust, client, negotiated, plan, confirmation);
      && (granted.Ok? <==>
            && client.access == ProductionRead && IsForOrigin(trust, client, negotiated)
            && negotiated.compatibility == plan.server
            && HasDigest(trust, plan, confirmation.planSha256)
            && plan.schemaVersion == 2 && confirmation.expectedOperations == plan.summaryMaxMutations)
      && (granted.Ok? ==>
            granted.value == ProductionImportClient(
              ImportClient(UploadClient(client, negotiated.compatibility, true)),
              ImportProof(confirmation.planSha256, confirmation.expectedOperations,
                          trust.sha256(confirmation.backupReference))))
  {
    DigestExactly(trust, plan, confirmation.planSha256);
  }

  /** A proof fits a plan exactly when it names the plan's digest and its count. */
  lemma ProofsFitExactly(trust: Trust, plan: UploadPlan, upload: UploadProof, importer: ImportProof)
    ensures upload.MatchesPlan(trust, plan) <==>
            HasDigest(trust, plan, upload.planSha256)
            && upload.expectedOperations == plan.summaryOperations == |plan.operations|
    ensures importer.MatchesPlan(trust, plan) <==>
            HasDigest(trust, plan, importer.planSha256)
            && plan.schemaVersion == 2 && importer.expectedMutations == plan.summaryMaxMutations
  {
    DigestExactly(trust, plan, upload.planSha256);
    DigestExactly(trust, plan, importer.planSha256);
  }

  // ---------------------------------------------------------------- confirmations

  /** White space: tab to carriage return, space, and the others Unicode lists. */
  predicate IsBlank(c: char) {
    || '\t' <= c <= '\r' || c == ' ' || c == '\U{0085}' || c == '\U{00A0}' || c == '\U{1680}'
    || '\U{2000}' <= c <= '\U{200A}'
    || c in {'\U{2028}', '\U{2029}', '\U{202F}', '\U{205F}', '\U{3000}'}
  }

  lemma BlankExactly(c: char)
    ensures IsWhitespace(c) <==> IsBlank(c)
  {
  }

  /** A reference of 1 to 256 bytes without control characters and without white space at either end. */
  predicate IsReference(text: string) {
    && text != "" && Utf8Length(text) <= 256
    && !IsBlank(text[0]) && !IsBlank(text[|text| - 1])
    && forall c :: c in text ==> ' ' <= c && !('\U{007F}' <= c <= '\U{009F}')
  }

  predicate IsSha256Text(text: string) {
    |text| == 64 && forall c :: c in text ==> '0' <= c <= '9' || 'a' <= c <= 'f'
  }

  /** A confirmation is made exactly from an acknowledgement, a digest, a positive count and a reference. */
  lemma ConfirmedExactly(acknowledged: bool, planSha256: string, expectedOperations: nat, backupReference: string)
    ensures var confirmation := NewConfirmation(acknowledged, planSha256, expectedOperations, backupReference);
      && (confirmation.Ok? <==>
            acknowledged && IsSha256Text(planSha256) && expectedOperations >= 1 && IsReference(backupReference))
      && (confirmation.Ok? ==> confirmation.value == Confirmation(planSha256, expectedOperations, backupReference))
  {
    Sha256TextExactly(planSha256);
    ReferenceExactly(backupReference);
    hide IsLowerSha256, IsSha256Text, IsReference, IsTrimmed, Utf8Length, IsControl;
  }

  lemma Sha256TextExactly(text: string)
    ensures IsLowerSha256(text) <==> IsSha256Text(text)
  {
    if IsSha256Text(text) {
      assert forall i :: 0 <= i < 64 ==> text[i] in text;
    }
  }

  lemma ReferenceExactly(text: string)
    ensures IsReference(text) <==>
            && |text| > 0 && Utf8Length(text) <= MAX_BACKUP_REFERENCE_BYTES && IsTrimmed(text)
            && !exists i :: 0 <= i < |text| && IsControl(text[i])
  {
    hide Utf8Length, IsWhitespace, IsBlank;
    if |text| > 0 {
      BlankExactly(text[0]);
      BlankExactly(text[|text| - 1]);
      if forall c :: c in text ==> ' ' <= c && !('\U{007F}' <= c <= '\U{009F}') {
        forall i | 0 <= i < |text| ensures !IsControl(text[i]) {
          assert text[i] in text;
        }
      }
      if !exists i :: 0 <= i < |text| && IsControl(text[i]) {
        forall c | c in text ensures !IsControl(c) {
          var i :| 0 <= i < |text| && text[i] == c;
        }
      }
    }
  }

  /** The counts a confirmation must give: of the operations for the first schema, of the mutations for the
      second. */
  predicate Counts(plan: UploadPlan, count: nat) {
    || (plan.schemaVersion == 1 && count == plan.summaryOperations == |plan.operations|)
    || (plan.schemaVersion == 2 && count == plan.summaryMaxMutations)
  }

  /** The offline gate passes exactly plans of the two schemas, either without a confirmation or with one of
      that plan, and keeps both. */
  lemma PreparedExactly(trust: Trust, plan: UploadPlan, request: Option<WriteRequest>)
    ensures var prepared := PrepareUploadApply(trust, plan, request);
      && (prepared.Ok? <==>
            && plan.schemaVersion in {1, 2}
            && (request.Some? ==>
                  && IsSha256Text(request.value.planSha256) && IsReference(request.value.backupReference)
                  && HasDigest(trust, plan, request.value.planSha256)
                  && request.value.expectedOperations >= 1 && Counts(plan, request.value.expectedOperations)))
      && (prepared.Ok? ==>
            prepared.value == Prepared(plan, if request.None? then None
                                             else Some(Confirmation(request.value.planSha256,
                                                                    request.value.expectedOperations,
                                                                    request.value.backupReference))))
  {
    hide IsSha256Text, IsReference, NewConfirmation, PlanSha256, HasDigest;
    if request.Some? {
      ConfirmedExactly(true, request.value.planSha256, request.value.expectedOperations, request.value.backupReference);
      DigestExactly(trust, plan, request.value.planSha256);
    }
  }
}

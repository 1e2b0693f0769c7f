/** The OCI archive verifier of scripts/verify-oci-layout.py. */
module OciLayout {
  import opened Bytes
  import opened Json
  import opened Sequences
  import opened Wrappers

  const MAX_INDEX_BYTES := 1024 * 1024
  const MAX_ATTESTATION_BYTES := 4 * 1024 * 1024

  datatype Failure = Rejected | TypeError

  datatype Member = Member(isFile: bool, size: nat, content: seq<Byte>)

  /** The archive's members by name, with SHA-256 and the JSON parser left uninterpreted. */
  datatype Archive = Archive(
    members: map<string, Member>,
    sha256: seq<Byte> -> string,
    parse: seq<Byte> -> Option<Json>)

  datatype Request = Request(commitSha: string, version: string, imageTitle: string)

  datatype Platform = Amd64 | Arm64

  function ArchitectureName(platform: Platform): string {
    if platform.Amd64? then "amd64" else "arm64"
  }

  // ---------------------------------------------------------------- reading members

  predicate IsLowerHex(text: string) {
    forall i :: 0 <= i < |text| ==> '0' <= text[i] <= '9' || 'a' <= text[i] <= 'f'
  }

  predicate StartsWith(text: string, prefix: string) {
    |prefix| <= |text| && text[..|prefix|] == prefix
  }

  const BLOB_PREFIX := "blobs/sha256/"
  const DIGEST_PREFIX := "sha256:"

  function BlobName(digest: string): Option<string> {
    if |digest| == |DIGEST_PREFIX| + 64 && StartsWith(digest, DIGEST_PREFIX) && IsLowerHex(digest[|DIGEST_PREFIX|..])
    then Some(BLOB_PREFIX + digest[|DIGEST_PREFIX|..])
    else None
  }

  function BoundedJson(archive: Archive, name: string, expectedSize: Option<int>, maxBytes: nat)
    : Result<map<string, Json>, Failure>
  {
    if name !in archive.members then Err(Rejected)
    else
      var member := archive.members[name];
      if !member.isFile || !(0 < member.size <= maxBytes) then Err(Rejected)
      else if expectedSize.Some? && member.size != expectedSize.value then Err(Rejected)
      else if |member.content| != member.size then Err(Rejected)
      else if StartsWith(name, BLOB_PREFIX) && archive.sha256(member.content) != name[|BLOB_PREFIX|..] then Err(Rejected)
      else
        match archive.parse(member.content)
        case None => Err(Rejected)
        case Some(value) => if value.Obj? then Ok(value.members) else Err(Rejected)
  }

  function DescriptorJson(archive: Archive, descriptor: map<string, Json>, maxBytes: nat)
    : Result<map<string, Json>, Failure>
  {
    var digest, size := Get(descriptor, "digest"), AsInt(Get(descriptor, "size"));
    if !digest.Str? || size.None? then Err(Rejected)
    else
      match BlobName(digest.text)
      case None => Err(Rejected)
      case Some(name) => BoundedJson(archive, name, size, maxBytes)
  }

  function ManifestDescriptors(archive: Archive, index: map<string, Json>): Result<seq<Json>, Failure> {
    var descriptors := Get(index, "manifests");
    if !IsNumber(Get(index, "schemaVersion"), 2) || !descriptors.Arr? then Err(Rejected)
    else if |descriptors.items| == 1 && descriptors.items[0].Obj?
         && "platform" !in descriptors.items[0].members
         && Get(descriptors.items[0].members, "mediaType") == Str("application/vnd.oci.image.index.v1+json") then
      match DescriptorJson(archive, descriptors.items[0].members, MAX_INDEX_BYTES)
      case Err(failure) => Err(failure)
      case Ok(nested) =>
        var inner := Get(nested, "manifests");
        if !IsNumber(Get(nested, "schemaVersion"), 2) || !inner.Arr? then Err(Rejected) else Ok(inner.items)
    else Ok(descriptors.items)
  }

  // ---------------------------------------------------------------- one image

  datatype Kind = Image(platform: Platform) | Other | Malformed(failure: Failure)

  /** What the first loop takes a descriptor for. */
  function KindOf(descriptor: Json): Kind {
    if !descriptor.Obj? || !Get(descriptor.members, "platform").Obj? then Malformed(Rejected)
    else
      var platform := Get(descriptor.members, "platform").members;
      var os, architecture := Get(platform, "os"), Get(platform, "architecture");
      if !Hashable(os) || !Hashable(architecture) then Malformed(TypeError)
      else if os == Str("linux") && architecture == Str("amd64") then Image(Amd64)
      else if os == Str("linux") && architecture == Str("arm64") then Image(Arm64)
      else Other
  }

  /** The image configuration a manifest points to. */
  function ImageConfig(archive: Archive, manifest: map<string, Json>): Result<map<string, Json>, Failure> {
    var config := Get(manifest, "config");
    if !IsNumber(Get(manifest, "schemaVersion"), 2) || !config.Obj? then Err(Rejected)
    else
      var digest, size := Get(config.members, "digest"), AsInt(Get(config.members, "size"));
      if !digest.Str? || size.None? then Err(Rejected)
      else
        match BlobName(digest.text)
        case None => Err(Rejected)
        case Some(name) => BoundedJson(archive, name, size, MAX_INDEX_BYTES)
  }

  predicate LabelsMatch(labels: Json, request: Request) {
    && labels.Obj?
    && Get(labels.members, "org.opencontainers.image.title") == Str(request.imageTitle)
    && Get(labels.members, "org.opencontainers.image.version") == Str(request.version)
    && Get(labels.members, "org.opencontainers.image.revision") == Str(request.commitSha)
  }

  predicate ConfigAccepted(config: map<string, Json>, platform: Platform, request: Request) {
    && Get(config, "os") == Str("linux")
    && Get(config, "architecture") == Str(ArchitectureName(platform))
    && Get(config, "config").Obj?
    && Get(Get(config, "config").members, "User") == Str("65532:65532")
    && LabelsMatch(Get(Get(config, "config").members, "Labels"), request)
  }

  /** The digest of an image whose manifest and configuration pass every check. */
  function CheckImage(archive: Archive, request: Request, descriptor: map<string, Json>, platform: Platform)
    : Result<string, Failure>
  {
    var digest := Get(descriptor, "digest");
    if !digest.Str? then Err(Rejected)
    else
      match DescriptorJson(archive, descriptor, MAX_INDEX_BYTES)
      case Err(failure) => Err(failure)
      case Ok(manifest) =>
        match ImageConfig(archive, manifest)
        case Err(failure) => Err(failure)
        case Ok(config) => if ConfigAccepted(config, platform, request) then Ok(digest.text) else Err(Rejected)
  }

  // ---------------------------------------------------------------- one attestation

  function PredicateType(layer: Json): Json {
    if layer.Obj? && Get(layer.members, "annotations").Obj?
    then Get(Get(layer.members, "annotations").members, "in-toto.io/predicate-type")
    else Null
  }

  /** The layers whose predicate type begins with the prefix, in order. */
  function LayersOf(layers: seq<Json>, prefix: string): seq<Json> {
    if |layers| == 0 then []
    else
      var first := PredicateType(layers[0]);
      (if first.Str? && StartsWith(first.text, prefix) then [layers[0]] else []) + LayersOf(layers[1..], prefix)
  }

  lemma {:induction false} LayersAreAnnotated(layers: seq<Json>, prefix: string)
    ensures forall layer :: layer in LayersOf(layers, prefix) ==>
              layer in layers && layer.Obj? && PredicateType(layer).Str? && StartsWith(PredicateType(layer).text, prefix)
  {
    if |layers| > 0 {
      LayersAreAnnotated(layers[1..], prefix);
    }
  }

  /** The object under a path of keys, if every step is an object. */
  function ObjectAt(members: map<string, Json>, path: seq<string>): Option<map<string, Json>>
    decreases |path|
  {
    if |path| == 0 then Some(members)
    else if !Get(members, path[0]).Obj? then None
    else ObjectAt(Get(members, path[0]).members, path[1..])
  }

  const SPDX_PREFIX := "https://spdx.dev/"
  const SLSA_PREFIX := "https://slsa.dev/provenance/"
  const REQUEST_PATH := ["predicate", "buildDefinition", "externalParameters", "request"]

  predicate SbomAccepted(statement: map<string, Json>, predicateType: string) {
    var predicate_ := ObjectAt(statement, ["predicate"]);
    && Get(statement, "predicateType") == Str(predicateType)
    && predicate_.Some?
    && Get(predicate_.value, "spdxVersion").Str?
    && StartsWith(Get(predicate_.value, "spdxVersion").text, "SPDX-")
    && Get(predicate_.value, "dataLicense") == Str("CC0-1.0")
  }

  predicate ProvenanceAccepted(statement: map<string, Json>, predicateType: string, commitSha: string) {
    var arguments := ObjectAt(statement, REQUEST_PATH + ["args"]);
    var rootArguments := ObjectAt(statement, REQUEST_PATH + ["root", "request", "args"]);
    var metadata := ObjectAt(statement, ["predicate", "runDetails", "metadata", "buildkit_metadata"]);
    && Get(statement, "predicateType") == Str(predicateType)
    && arguments.Some? && rootArguments.Some? && metadata.Some?
    && Get(arguments.value, "build-arg:VCS_REF") == Str(commitSha)
    && Get(rootArguments.value, "vcs:revision") == Str(commitSha)
    && (Get(metadata.value, "vcs.revision") == Null || Get(metadata.value, "vcs.revision") == Str(commitSha))
  }

  /** Exactly one SPDX layer and one SLSA layer, both readable, the latter for this commit. */
  predicate LayersAccepted(archive: Archive, request: Request, layers: seq<Json>) {
    LayersAreAnnotated(layers, SPDX_PREFIX);
    LayersAreAnnotated(layers, SLSA_PREFIX);
    var sbom, provenance := LayersOf(layers, SPDX_PREFIX), LayersOf(layers, SLSA_PREFIX);
    && |sbom| == 1 && |provenance| == 1
    && var sbomStatement := DescriptorJson(archive, sbom[0].members, MAX_ATTESTATION_BYTES);
    && sbomStatement.Ok? && SbomAccepted(sbomStatement.value, PredicateType(sbom[0]).text)
    && var statement := DescriptorJson(archive, provenance[0].members, MAX_ATTESTATION_BYTES);
    && statement.Ok?
    && ProvenanceAccepted(statement.value, PredicateType(provenance[0]).text, request.commitSha)
  }

  /** The image digest an attestation descriptor refers to, when everything about it but the
      uniqueness of its reference passes. */
  function CheckAttestation(archive: Archive, request: Request, descriptor: Json, digests: set<string>)
    : Result<string, Failure>
    requires descriptor.Obj?
  {
    var annotations := Get(descriptor.members, "annotations");
    if !annotations.Obj? || Get(annotations.members, "vnd.docker.reference.type") != Str("attestation-manifest") then
      Err(Rejected)
    else
      var reference := Get(annotations.members, "vnd.docker.reference.digest");
      if !reference.Str? || reference.text !in digests || !Get(descriptor.members, "digest").Str? then Err(Rejected)
      else
        match DescriptorJson(archive, descriptor.members, MAX_INDEX_BYTES)
        case Err(failure) => Err(failure)
        case Ok(manifest) =>
          var layers := Get(manifest, "layers");
          if layers.Arr? && LayersAccepted(archive, request, layers.items) then Ok(reference.text) else Err(Rejected)
  }

  // ---------------------------------------------------------------- the two loops

  datatype Found = Found(platforms: map<Platform, string>, attestations: seq<Json>)

  function Classify(archive: Archive, request: Request, descriptors: seq<Json>, found: Found): Result<Found, Failure>
    decreases |descriptors|
  {
    if |descriptors| == 0 then Ok(found)
    else
      match KindOf(descriptors[0])
      case Malformed(failure) => Err(failure)
      case Other => Classify(archive, request, descriptors[1..], found.(attestations := found.attestations + [descriptors[0]]))
      case Image(platform) =>
        if platform in found.platforms then Err(Rejected)
        else
          match CheckImage(archive, request, descriptors[0].members, platform)
          case Err(failure) => Err(failure)
          case Ok(digest) =>
            Classify(archive, request, descriptors[1..], found.(platforms := found.platforms[platform := digest]))
  }

  function Attest(archive: Archive, request: Request, attestations: seq<Json>, digests: set<string>,
                  attested: set<string>)
    : Result<set<string>, Failure>
    requires forall descriptor :: descriptor in attestations ==> descriptor.Obj?
    decreases |attestations|
  {
    if |attestations| == 0 then Ok(attested)
    else
      match CheckAttestation(archive, request, attestations[0], digests)
      case Err(failure) => Err(failure)
      case Ok(reference) =>
        if reference in attested then Err(Rejected)
        else Attest(archive, request, attestations[1..], digests, attested + {reference})
  }

  lemma {:induction false} ClassifiedAreObjects(archive: Archive, request: Request, descriptors: seq<Json>, found: Found)
    requires forall descriptor :: descriptor in found.attestations ==> descriptor.Obj?
    ensures var classified := Classify(archive, request, descriptors, found);
      classified.Ok? ==> forall descriptor :: descriptor in classified.value.attestations ==> descriptor.Obj?
    decreases |descriptors|
  {
    hide CheckImage;
    if |descriptors| > 0 {
      match KindOf(descriptors[0])
      case Malformed(_) =>
      case Other =>
        ClassifiedAreObjects(archive, request, descriptors[1..],
                             found.(attestations := found.attestations + [descriptors[0]]));
      case Image(platform) =>
        var digest := CheckImage(archive, request, descriptors[0].members, platform);
        if digest.Ok? {
          ClassifiedAreObjects(archive, request, descriptors[1..],
                               found.(platforms := found.platforms[platform := digest.value]));
        }
    }
  }

  /** The platform digests of an accepted list of descriptors. */
  function VerifyDescriptors(archive: Archive, request: Request, descriptors: seq<Json>)
    : Result<map<Platform, string>, Failure>
  {
    ClassifiedAreObjects(archive, request, descriptors, Found(map[], []));
    match Classify(archive, request, descriptors, Found(map[], []))
    case Err(failure) => Err(failure)
    case Ok(found) =>
      if found.platforms.Keys != {Amd64, Arm64} then Err(Rejected)
      else
        match Attest(archive, request, found.attestations, found.platforms.Values, {})
        case Err(failure) => Err(failure)
        case Ok(attested) => if attested != found.platforms.Values then Err(Rejected) else Ok(found.platforms)
  }

  // ---------------------------------------------------------------- what acceptance means

  function OfKind(descriptors: seq<Json>, kind: Kind): seq<Json> {
    Filter(descriptors, (descriptor: Json) => KindOf(descriptor) == kind)
  }

  predicate NoneMalformed(descriptors: seq<Json>) {
    forall descriptor :: descriptor in descriptors ==> !KindOf(descriptor).Malformed?
  }

  /** The digest of an image descriptor that passes. */
  function Checked(archive: Archive, request: Request, descriptor: Json, platform: Platform): Option<string> {
    if !descriptor.Obj? then None
    else
      match CheckImage(archive, request, descriptor.members, platform)
      case Err(_) => None
      case Ok(digest) => Some(digest)
  }

  /** The image digest an attestation descriptor that passes refers to. */
  function Reference(archive: Archive, request: Request, descriptor: Json, digests: set<string>): Option<string> {
    if !descriptor.Obj? then None
    else
      match CheckAttestation(archive, request, descriptor, digests)
      case Err(_) => None
      case Ok(reference) => Some(reference)
  }

  function Referring(archive: Archive, request: Request, attestations: seq<Json>, digests: set<string>, digest: string)
    : seq<Json>
  {
    Filter(attestations, (descriptor: Json) => Reference(archive, request, descriptor, digests) == Some(digest))
  }

  /** The images of one platform among the descriptors, given whether one was found before. */
  ghost predicate ImagesAcceptable(archive: Archive, request: Request, descriptors: seq<Json>, platform: Platform,
                                   seen: nat)
  {
    var images := OfKind(descriptors, Image(platform));
    && |images| + seen <= 1
    && (|images| == 1 ==> Checked(archive, request, images[0], platform).Some?)
  }

  lemma OfKindCons(descriptors: seq<Json>, kind: Kind)
    requires |descriptors| > 0
    ensures OfKind(descriptors, kind)
         == (if KindOf(descriptors[0]) == kind then [descriptors[0]] else []) + OfKind(descriptors[1..], kind)
  {
  }

  lemma MalformedCons(descriptors: seq<Json>)
    requires |descriptors| > 0
    ensures NoneMalformed(descriptors) <==> !KindOf(descriptors[0]).Malformed? && NoneMalformed(descriptors[1..])
  {
    hide KindOf;
    assert descriptors == [descriptors[0]] + descriptors[1..];
  }

  function Seen(found: Found, platform: Platform): nat {
    if platform in found.platforms then 1 else 0
  }

  /** The first loop succeeds exactly when nothing is malformed and each platform has at most one
      image, which passes; it then keeps everything else, in order. */
  lemma {:induction false} ClassifySucceeds(archive: Archive, request: Request, descriptors: seq<Json>, found: Found)
    ensures Classify(archive, request, descriptors, found).Ok? <==>
            && NoneMalformed(descriptors)
            && ImagesAcceptable(archive, request, descriptors, Amd64, Seen(found, Amd64))
            && ImagesAcceptable(archive, request, descriptors, Arm64, Seen(found, Arm64))
    decreases |descriptors|
  {
    hide KindOf, CheckImage, OfKind;
    if |descriptors| == 0 {
      NothingOfKind(Image(Amd64));
      NothingOfKind(Image(Arm64));
    } else {
      var first, rest := descriptors[0], descriptors[1..];
      MalformedCons(descriptors);
      OfKindCons(descriptors, Image(Amd64));
      OfKindCons(descriptors, Image(Arm64));
      match KindOf(first)
      case Malformed(_) =>
      case Other =>
        assert OfKind(descriptors, Image(Amd64)) == OfKind(rest, Image(Amd64));
        assert OfKind(descriptors, Image(Arm64)) == OfKind(rest, Image(Arm64));
        ClassifySucceeds(archive, request, rest, found.(attestations := found.attestations + [first]));
      case Image(platform) =>
        KindIsObject(first);
        OfKindCons(descriptors, Image(platform));
        assert OfKind(descriptors, Image(platform))[0] == first;
        var other := if platform.Amd64? then Arm64 else Amd64;
        assert OfKind(descriptors, Image(other)) == OfKind(rest, Image(other));
        var digest := CheckImage(archive, request, first.members, platform);
        if digest.Ok? && platform !in found.platforms {
          ClassifySucceeds(archive, request, rest, found.(platforms := found.platforms[platform := digest.value]));
        }
    }
  }

  lemma NothingOfKind(kind: Kind)
    ensures OfKind([], kind) == []
  {
  }

  lemma KindIsObject(descriptor: Json)
    requires !KindOf(descriptor).Malformed?
    ensures descriptor.Obj?
  {
  }

  /** What the first loop returns. */
  lemma {:induction false} ClassifyCollects(archive: Archive, request: Request, descriptors: seq<Json>, found: Found,
                                            platform: Platform)
    requires Classify(archive, request, descriptors, found).Ok?
    ensures var result := Classify(archive, request, descriptors, found).value;
      var images := OfKind(descriptors, Image(platform));
      && result.attestations == found.attestations + OfKind(descriptors, Other)
      && (platform in found.platforms ==>
            platform in result.platforms && result.platforms[platform] == found.platforms[platform])
      && (platform !in found.platforms ==>
            if |images| == 1 then
              platform in result.platforms
              && Checked(archive, request, images[0], platform) == Some(result.platforms[platform])
            else platform !in result.platforms)
    decreases |descriptors|
  {
    hide KindOf, CheckImage, OfKind, ImagesAcceptable, NoneMalformed;
    NothingOfKind(Image(platform));
    NothingOfKind(Other);
    if |descriptors| > 0 {
      var first, rest := descriptors[0], descriptors[1..];
      OfKindCons(descriptors, Image(platform));
      OfKindCons(descriptors, Other);
      KindIsObject(first);
      if KindOf(first).Other? {
        ClassifyCollects(archive, request, rest, found.(attestations := found.attestations + [first]), platform);
        Associative(found.attestations, [first], OfKind(rest, Other));
        assert OfKind(descriptors, Image(platform)) == OfKind(rest, Image(platform));
      } else {
        var own := KindOf(first).platform;
        var digest := CheckImage(archive, request, first.members, own).value;
        var next := found.(platforms := found.platforms[own := digest]);
        ClassifyCollects(archive, request, rest, next, platform);
        assert OfKind(descriptors, Other) == OfKind(rest, Other);
        if own == platform {
          ClassifySucceeds(archive, request, descriptors, found);
          SeenAtMostOnce(archive, request, descriptors, platform, Seen(found, platform));
        } else {
          assert OfKind(descriptors, Image(platform)) == OfKind(rest, Image(platform));
        }
      }
    }
  }

  lemma SeenAtMostOnce(archive: Archive, request: Request, descriptors: seq<Json>, platform: Platform, seen: nat)
    ensures ImagesAcceptable(archive, request, descriptors, platform, seen) ==>
            |OfKind(descriptors, Image(platform))| <= 1
  {
  }

  predicate AllRefer(archive: Archive, request: Request, attestations: seq<Json>, digests: set<string>) {
    forall descriptor :: descriptor in attestations ==> Reference(archive, request, descriptor, digests).Some?
  }

  lemma ReferringCons(archive: Archive, request: Request, attestations: seq<Json>, digests: set<string>, digest: string)
    requires |attestations| > 0
    ensures Referring(archive, request, attestations, digests, digest)
         == (if Reference(archive, request, attestations[0], digests) == Some(digest) then [attestations[0]] else [])
            + Referring(archive, request, attestations[1..], digests, digest)
    ensures AllRefer(archive, request, attestations, digests) <==>
            Reference(archive, request, attestations[0], digests).Some?
            && AllRefer(archive, request, attestations[1..], digests)
  {
    hide Reference;
    assert attestations == [attestations[0]] + attestations[1..];
  }

  /** How often a digest is referred to, counting references accepted before. */
  function References(archive: Archive, request: Request, attestations: seq<Json>, digests: set<string>,
                      attested: set<string>, digest: string): nat
  {
    |Referring(archive, request, attestations, digests, digest)| + (if digest in attested then 1 else 0)
  }

  /** The second loop succeeds exactly when every attestation passes and no digest is referred to
      twice; the result then holds the digests referred to. */
  lemma {:induction false} AttestSucceeds(archive: Archive, request: Request, attestations: seq<Json>,
                                          digests: set<string>, attested: set<string>)
    requires forall descriptor :: descriptor in attestations ==> descriptor.Obj?
    ensures var result := Attest(archive, request, attestations, digests, attested);
      && (result.Ok? <==>
            && AllRefer(archive, request, attestations, digests)
            && forall digest :: References(archive, request, attestations, digests, attested, digest) <= 1)
      && (result.Ok? ==>
            forall digest :: digest in result.value <==>
              References(archive, request, attestations, digests, attested, digest) == 1)
    decreases |attestations|
  {
    hide CheckAttestation, Referring;
    if |attestations| == 0 {
      forall digest ensures References(archive, request, [], digests, attested, digest)
                         == if digest in attested then 1 else 0
      {
        NothingRefers(archive, request, digests, digest);
      }
    } else {
      var first := CheckAttestation(archive, request, attestations[0], digests);
      forall digest ensures References(archive, request, attestations, digests, attested, digest)
                         == References(archive, request, attestations[1..], digests, attested, digest)
                            + if first == Ok(digest) then 1 else 0
      {
        ReferringCons(archive, request, attestations, digests, digest);
      }
      ReferringCons(archive, request, attestations, digests, "");
      if first.Ok? && first.value !in attested {
        var more := attested + {first.value};
        AttestSucceeds(archive, request, attestations[1..], digests, more);
        forall digest ensures References(archive, request, attestations[1..], digests, more, digest)
                           == References(archive, request, attestations, digests, attested, digest)
        {
          assert References(archive, request, attestations, digests, attested, digest)
              == References(archive, request, attestations[1..], digests, attested, digest)
                 + if first == Ok(digest) then 1 else 0;
        }
      } else if first.Ok? {
        assert References(archive, request, attestations, digests, attested, first.value) >= 2;
      }
    }
  }

  lemma NothingRefers(archive: Archive, request: Request, digests: set<string>, digest: string)
    ensures Referring(archive, request, [], digests, digest) == []
  {
  }

  /** The only image of a platform, when there is exactly one and it passes. */
  ghost predicate OneImage(archive: Archive, request: Request, descriptors: seq<Json>, platform: Platform, digest: string) {
    var images := OfKind(descriptors, Image(platform));
    |images| == 1 && Checked(archive, request, images[0], platform) == Some(digest)
  }

  /** Acceptance without loops: no malformed descriptor, exactly one passing image for each platform,
      and everything else a passing attestation, exactly one for each of the two digests. */
  ghost predicate Acceptable(archive: Archive, request: Request, descriptors: seq<Json>, amd64: string, arm64: string) {
    var others := OfKind(descriptors, Other);
    && NoneMalformed(descriptors)
    && OneImage(archive, request, descriptors, Amd64, amd64)
    && OneImage(archive, request, descriptors, Arm64, arm64)
    && AllRefer(archive, request, others, {amd64, arm64})
    && |Referring(archive, request, others, {amd64, arm64}, amd64)| == 1
    && |Referring(archive, request, others, {amd64, arm64}, arm64)| == 1
  }

  lemma OthersAreObjects(descriptors: seq<Json>)
    ensures forall descriptor :: descriptor in OfKind(descriptors, Other) ==> descriptor.Obj?
  {
    FilterMeans(descriptors, (descriptor: Json) => KindOf(descriptor) == Other);
  }

  lemma ReferenceIsOneOf(archive: Archive, request: Request, descriptor: Json, digests: set<string>)
    ensures var reference := Reference(archive, request, descriptor, digests);
      reference.Some? ==> reference.value in digests
  {
    hide LayersAccepted, DescriptorJson;
  }

  lemma {:induction false} NobodyRefersElsewhere(archive: Archive, request: Request, attestations: seq<Json>,
                                                 digests: set<string>, digest: string)
    requires digest !in digests
    ensures Referring(archive, request, attestations, digests, digest) == []
  {
    hide Reference;
    if |attestations| == 0 {
      NothingRefers(archive, request, digests, digest);
    } else {
      ReferenceIsOneOf(archive, request, attestations[0], digests);
      ReferringCons(archive, request, attestations, digests, digest);
      NobodyRefersElsewhere(archive, request, attestations[1..], digests, digest);
    }
  }

  /** What the second loop and the check after it decide. */
  lemma AttestationDecides(archive: Archive, request: Request, others: seq<Json>, amd64: string, arm64: string)
    requires forall descriptor :: descriptor in others ==> descriptor.Obj?
    ensures var digests := {amd64, arm64};
      var result := Attest(archive, request, others, digests, {});
      (result.Ok? && result.value == digests) <==>
        && AllRefer(archive, request, others, digests)
        && |Referring(archive, request, others, digests, amd64)| == 1
        && |Referring(archive, request, others, digests, arm64)| == 1
  {
    hide Attest, Referring;
    var digests := {amd64, arm64};
    var result := Attest(archive, request, others, digests, {});
    AttestSucceeds(archive, request, others, digests, {});
    forall digest ensures digest !in digests ==> References(archive, request, others, digests, {}, digest) == 0 {
      if digest !in digests {
        NobodyRefersElsewhere(archive, request, others, digests, digest);
      }
    }
    assert References(archive, request, others, digests, {}, amd64)
        == |Referring(archive, request, others, digests, amd64)|;
    assert References(archive, request, others, digests, {}, arm64)
        == |Referring(archive, request, others, digests, arm64)|;
    if result.Ok? && |Referring(archive, request, others, digests, amd64)| == 1
       && |Referring(archive, request, others, digests, arm64)| == 1 {
      assert forall digest :: digest in result.value <==> digest in digests;
    }
  }

  lemma TwoPlatforms(platforms: map<Platform, string>)
    requires platforms.Keys == {Amd64, Arm64}
    ensures platforms == map[Amd64 := platforms[Amd64], Arm64 := platforms[Arm64]]
    ensures platforms.Values == {platforms[Amd64], platforms[Arm64]}
  {
    assert Amd64 in platforms.Keys && Arm64 in platforms.Keys;
  }

  /** The verifier accepts exactly the acceptable lists, and reports their two digests. */
  lemma AcceptsExactlyTheAcceptable(archive: Archive, request: Request, descriptors: seq<Json>)
    ensures var verified := VerifyDescriptors(archive, request, descriptors);
      && (verified.Ok? ==>
            && verified.value.Keys == {Amd64, Arm64}
            && verified.value == map[Amd64 := verified.value[Amd64], Arm64 := verified.value[Arm64]]
            && Acceptable(archive, request, descriptors, verified.value[Amd64], verified.value[Arm64]))
      && forall amd64, arm64 :: Acceptable(archive, request, descriptors, amd64, arm64) ==>
           verified == Ok(map[Amd64 := amd64, Arm64 := arm64])
  {
    hide Classify, Attest, OfKind, Checked, NoneMalformed, Referring, AllRefer;
    var verified := VerifyDescriptors(archive, request, descriptors);
    ClassifySucceeds(archive, request, descriptors, Found(map[], []));
    OthersAreObjects(descriptors);
    var classified := Classify(archive, request, descriptors, Found(map[], []));
    if classified.Ok? {
      ClassifyCollects(archive, request, descriptors, Found(map[], []), Amd64);
      ClassifyCollects(archive, request, descriptors, Found(map[], []), Arm64);
      var others := OfKind(descriptors, Other);
      assert classified.value.attestations == others;
      var platforms := classified.value.platforms;
      if platforms.Keys == {Amd64, Arm64} {
        TwoPlatforms(platforms);
        AttestationDecides(archive, request, others, platforms[Amd64], platforms[Arm64]);
      }
      BothFound(platforms);
    }
    forall amd64, arm64 | Acceptable(archive, request, descriptors, amd64, arm64)
      ensures verified == Ok(map[Amd64 := amd64, Arm64 := arm64])
    {
      assert classified.Ok?;
    }
  }

  lemma BothFound(platforms: map<Platform, string>)
    ensures platforms.Keys == {Amd64, Arm64} <==> Amd64 in platforms && Arm64 in platforms
  {
    forall platform | platform in platforms.Keys ensures platform in {Amd64, Arm64} {
      assert platform.Amd64? || platform.Arm64?;
    }
    if Amd64 in platforms && Arm64 in platforms {
      assert {Amd64, Arm64} <= platforms.Keys;
    }
  }

  // ---------------------------------------------------------------- consequences

  /** What a descriptor reads depends on its digest alone. */
  lemma DescriptorContent(archive: Archive, descriptor: map<string, Json>, other: map<string, Json>, maxBytes: nat)
    requires DescriptorJson(archive, descriptor, maxBytes).Ok? && DescriptorJson(archive, other, maxBytes).Ok?
    requires Get(descriptor, "digest") == Get(other, "digest")
    ensures DescriptorJson(archive, descriptor, maxBytes) == DescriptorJson(archive, other, maxBytes)
  {
  }

  lemma CheckedArchitecture(archive: Archive, request: Request, descriptor: Json, platform: Platform)
    requires Checked(archive, request, descriptor, platform).Some?
    ensures descriptor.Obj?
    ensures Get(descriptor.members, "digest") == Str(Checked(archive, request, descriptor, platform).value)
    ensures var manifest := DescriptorJson(archive, descriptor.members, MAX_INDEX_BYTES);
      && manifest.Ok? && ImageConfig(archive, manifest.value).Ok?
      && Get(ImageConfig(archive, manifest.value).value, "architecture") == Str(ArchitectureName(platform))
  {
    hide DescriptorJson, ImageConfig, LabelsMatch;
  }

  /** A shared manifest digest is one manifest with one configuration, and that names one architecture. */
  lemma SameDigestSamePlatform(archive: Archive, request: Request, first: Json, second: Json, p: Platform, q: Platform)
    requires Checked(archive, request, first, p).Some?
    requires Checked(archive, request, first, p) == Checked(archive, request, second, q)
    ensures p == q
  {
    CheckedArchitecture(archive, request, first, p);
    CheckedArchitecture(archive, request, second, q);
    hide DescriptorJson, ImageConfig, Checked;
    DescriptorContent(archive, first.members, second.members, MAX_INDEX_BYTES);
    assert ArchitectureName(p) == ArchitectureName(q);
    assert "amd64"[1] != "arm64"[1];
  }

  /** The two images have different manifest digests. */
  lemma ImagesDiffer(archive: Archive, request: Request, first: Json, second: Json, amd64: string, arm64: string)
    requires Checked(archive, request, first, Amd64) == Some(amd64)
    requires Checked(archive, request, second, Arm64) == Some(arm64)
    ensures amd64 != arm64
  {
    hide Checked;
    if amd64 == arm64 {
      SameDigestSamePlatform(archive, request, first, second, Amd64, Arm64);
    }
  }

  lemma {:induction false} EveryReferenceIsCounted(archive: Archive, request: Request, attestations: seq<Json>,
                                                   first: string, second: string)
    requires first != second && AllRefer(archive, request, attestations, {first, second})
    ensures |attestations| == |Referring(archive, request, attestations, {first, second}, first)|
                              + |Referring(archive, request, attestations, {first, second}, second)|
  {
    hide Reference, Referring;
    var digests := {first, second};
    if |attestations| == 0 {
      NothingRefers(archive, request, digests, first);
      NothingRefers(archive, request, digests, second);
    } else {
      ReferringCons(archive, request, attestations, digests, first);
      ReferringCons(archive, request, attestations, digests, second);
      ReferenceIsOneOf(archive, request, attestations[0], digests);
      EveryReferenceIsCounted(archive, request, attestations[1..], first, second);
    }
  }

  lemma {:induction false} EveryDescriptorIsCounted(descriptors: seq<Json>)
    requires NoneMalformed(descriptors)
    ensures |descriptors| == |OfKind(descriptors, Image(Amd64))| + |OfKind(descriptors, Image(Arm64))|
                             + |OfKind(descriptors, Other)|
  {
    hide KindOf, OfKind;
    if |descriptors| == 0 {
      NothingOfKind(Image(Amd64));
      NothingOfKind(Image(Arm64));
      NothingOfKind(Other);
    } else {
      MalformedCons(descriptors);
      OfKindCons(descriptors, Image(Amd64));
      OfKindCons(descriptors, Image(Arm64));
      OfKindCons(descriptors, Other);
      EveryDescriptorIsCounted(descriptors[1..]);
      match KindOf(descriptors[0])
      case Malformed(_) =>
      case Other =>
      case Image(platform) =>
        assert platform.Amd64? || platform.Arm64?;
    }
  }

  /** An accepted archive lists four descriptors: two images with different digests and two
      attestations, one for each digest. */
  lemma AcceptedShape(archive: Archive, request: Request, descriptors: seq<Json>)
    requires VerifyDescriptors(archive, request, descriptors).Ok?
    ensures var platforms := VerifyDescriptors(archive, request, descriptors).value;
      && platforms.Keys == {Amd64, Arm64} && platforms[Amd64] != platforms[Arm64]
      && |descriptors| == 4
      && |OfKind(descriptors, Image(Amd64))| == 1 && |OfKind(descriptors, Image(Arm64))| == 1
      && |OfKind(descriptors, Other)| == 2
      && forall platform :: platform in platforms ==>
           |Referring(archive, request, OfKind(descriptors, Other), platforms.Values, platforms[platform])| == 1
  {
    hide VerifyDescriptors, OfKind, Checked, NoneMalformed, Referring, AllRefer;
    AcceptsExactlyTheAcceptable(archive, request, descriptors);
    var platforms := VerifyDescriptors(archive, request, descriptors).value;
    TwoPlatforms(platforms);
    ImagesDiffer(archive, request, OfKind(descriptors, Image(Amd64))[0], OfKind(descriptors, Image(Arm64))[0],
                 platforms[Amd64], platforms[Arm64]);
    EveryReferenceIsCounted(archive, request, OfKind(descriptors, Other), platforms[Amd64], platforms[Arm64]);
    EveryDescriptorIsCounted(descriptors);
  }

  lemma AcceptableInAnyOrder(archive: Archive, request: Request, a: seq<Json>, b: seq<Json>, amd64: string, arm64: string)
    requires multiset(a) == multiset(b)
    requires Acceptable(archive, request, a, amd64, arm64)
    ensures Acceptable(archive, request, b, amd64, arm64)
  {
    hide KindOf, Checked, Reference;
    OfKindPermutes(a, b, Image(Amd64));
    OfKindPermutes(a, b, Image(Arm64));
    OfKindPermutes(a, b, Other);
    forall descriptor ensures descriptor in a <==> descriptor in b {
      assert descriptor in multiset(a) <==> descriptor in multiset(b);
    }
    var others, others' := OfKind(a, Other), OfKind(b, Other);
    forall descriptor ensures descriptor in others <==> descriptor in others' {
      assert descriptor in multiset(others) <==> descriptor in multiset(others');
    }
    var digests := {amd64, arm64};
    FilterPermutes(others, others', (descriptor: Json) => Reference(archive, request, descriptor, digests) == Some(amd64));
    FilterPermutes(others, others', (descriptor: Json) => Reference(archive, request, descriptor, digests) == Some(arm64));
  }

  lemma OfKindPermutes(a: seq<Json>, b: seq<Json>, kind: Kind)
    requires multiset(a) == multiset(b)
    ensures multiset(OfKind(a, kind)) == multiset(OfKind(b, kind))
    ensures |OfKind(a, kind)| == |OfKind(b, kind)|
    ensures |OfKind(a, kind)| == 1 ==> OfKind(a, kind)[0] == OfKind(b, kind)[0]
  {
    FilterPermutes(a, b, (descriptor: Json) => KindOf(descriptor) == kind);
    if |OfKind(a, kind)| == 1 {
      hide OfKind;
      SingletonPermutes(OfKind(a, kind), OfKind(b, kind));
    }
  }

  lemma SingletonPermutes(a: seq<Json>, b: seq<Json>)
    requires multiset(a) == multiset(b) && |a| == 1 && |b| == 1
    ensures a[0] == b[0]
  {
    assert a[0] in multiset(b);
    assert b == [b[0]];
  }

  /** Acceptance and the reported digests do not depend on the order of the descriptors. */
  lemma OrderDoesNotMatter(archive: Archive, request: Request, a: seq<Json>, b: seq<Json>)
    requires multiset(a) == multiset(b)
    ensures var first, second := VerifyDescriptors(archive, request, a), VerifyDescriptors(archive, request, b);
      && (first.Ok? <==> second.Ok?)
      && (first.Ok? ==> first.value == second.value)
  {
    hide VerifyDescriptors, Acceptable;
    AcceptsExactlyTheAcceptable(archive, request, a);
    AcceptsExactlyTheAcceptable(archive, request, b);
    var first, second := VerifyDescriptors(archive, request, a), VerifyDescriptors(archive, request, b);
    if first.Ok? {
      AcceptableInAnyOrder(archive, request, a, b, first.value[Amd64], first.value[Arm64]);
    }
    if second.Ok? {
      AcceptableInAnyOrder(archive, request, b, a, second.value[Amd64], second.value[Arm64]);
    }
  }

  // ---------------------------------------------------------------- the loops

  /** The first loop (lines 166-213). */
  method ClassifyAll(archive: Archive, request: Request, descriptors: seq<Json>) returns (r: Result<Found, Failure>)
    ensures r == Classify(archive, request, descriptors, Found(map[], []))
  {
    hide KindOf, CheckImage;
    var platforms: map<Platform, string>, attestations: seq<Json> := map[], [];
    assert descriptors[0..] == descriptors;
    for i := 0 to |descriptors|
      invariant Classify(archive, request, descriptors, Found(map[], []))
             == Classify(archive, request, descriptors[i..], Found(platforms, attestations))
    {
      var descriptor := descriptors[i];
      assert descriptors[i..][0] == descriptor && descriptors[i..][1..] == descriptors[i + 1..];
      match KindOf(descriptor)
      case Malformed(failure) =>
        return Err(failure);
      case Other =>
        attestations := attestations + [descriptor];
      case Image(platform) =>
        KindIsObject(descriptor);
        if platform in platforms {
          return Err(Rejected);
        }
        var digest := CheckImage(archive, request, descriptor.members, platform);
        if digest.Err? {
          return Err(digest.error);
        }
        platforms := platforms[platform := digest.value];
    }
    return Ok(Found(platforms, attestations));
  }

  /** The second loop (lines 217-264). */
  method AttestAll(archive: Archive, request: Request, attestations: seq<Json>, digests: set<string>)
    returns (r: Result<set<string>, Failure>)
    requires forall descriptor :: descriptor in attestations ==> descriptor.Obj?
    ensures r == Attest(archive, request, attestations, digests, {})
  {
    hide CheckAttestation;
    var attested: set<string> := {};
    assert attestations[0..] == attestations;
    for i := 0 to |attestations|
      invariant Attest(archive, request, attestations, digests, {})
             == Attest(archive, request, attestations[i..], digests, attested)
    {
      assert attestations[i..][0] == attestations[i] && attestations[i..][1..] == attestations[i + 1..];
      var reference := CheckAttestation(archive, request, attestations[i], digests);
      if reference.Err? {
        return Err(reference.error);
      }
      if reference.value in attested {
        return Err(Rejected);
      }
      attested := attested + {reference.value};
    }
    return Ok(attested);
  }
}

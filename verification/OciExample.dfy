/** An archive that the OCI verifier accepts, for every request: what is proved about accepted archives
    is about something. */
module OciExample {
  import opened Bytes
  import opened Json
  import opened OciLayout
  import opened Wrappers

  // ---------------------------------------------------------------- an archive of numbered documents

  function Hex64(k: nat): string
    requires k < 10
  {
    seq(64, _ => '0' + k as char)
  }

  function Digest(k: nat): string
    requires k < 10
  {
    DIGEST_PREFIX + Hex64(k)
  }

  function Path(k: nat): string
    requires k < 10
  {
    BLOB_PREFIX + Hex64(k)
  }

  /** The first documents as members: document k is the blob of the one byte k. */
  function Blobs(count: nat): map<string, Member>
    requires count <= 10
  {
    if count == 0 then map[] else Blobs(count - 1)[Path(count - 1) := Member(true, 1, [count - 1])]
  }

  /** The digest of document k is the digit k sixty-four times. */
  function ArchiveOf(documents: seq<map<string, Json>>): Archive
    requires |documents| <= 10
  {
    Archive(
      Blobs(|documents|),
      (content: seq<Byte>) => if |content| == 1 && content[0] < 10 then Hex64(content[0]) else "",
      (content: seq<Byte>) => if |content| == 1 && content[0] < |documents| then Some(Obj(documents[content[0]])) else None)
  }

  lemma PathsDiffer(j: nat, k: nat)
    requires j < 10 && k < 10 && Path(j) == Path(k)
    ensures j == k
  {
    assert Path(j)[|BLOB_PREFIX|] == Hex64(j)[0] && Path(k)[|BLOB_PREFIX|] == Hex64(k)[0];
  }

  lemma {:induction false} BlobIsThere(count: nat, k: nat)
    requires k < count <= 10
    ensures Path(k) in Blobs(count) && Blobs(count)[Path(k)] == Member(true, 1, [k])
  {
    if k < count - 1 {
      BlobIsThere(count - 1, k);
      if Path(count - 1) == Path(k) {
        PathsDiffer(count - 1, k);
      }
    }
  }

  lemma DigestNamesPath(k: nat)
    requires k < 10
    ensures BlobName(Digest(k)) == Some(Path(k))
    ensures StartsWith(Path(k), BLOB_PREFIX) && Path(k)[|BLOB_PREFIX|..] == Hex64(k)
  {
    assert Digest(k)[|DIGEST_PREFIX|..] == Hex64(k);
  }

  lemma BlobReads(documents: seq<map<string, Json>>, k: nat, maxBytes: nat)
    requires k < |documents| <= 10 && maxBytes > 0
    ensures BoundedJson(ArchiveOf(documents), Path(k), Some(1), maxBytes) == Ok(documents[k])
  {
    BlobIsThere(|documents|, k);
    DigestNamesPath(k);
    hide Path, Hex64, StartsWith, Blobs;
  }

  /** The members of a descriptor for document k. */
  predicate Describes(descriptor: map<string, Json>, k: nat)
    requires k < 10
  {
    Get(descriptor, "digest") == Str(Digest(k)) && Get(descriptor, "size") == Int(1)
  }

  lemma DescriptorReads(documents: seq<map<string, Json>>, descriptor: map<string, Json>, k: nat, maxBytes: nat)
    requires k < |documents| <= 10 && maxBytes > 0 && Describes(descriptor, k)
    ensures DescriptorJson(ArchiveOf(documents), descriptor, maxBytes) == Ok(documents[k])
  {
    BlobReads(documents, k, maxBytes);
    DigestNamesPath(k);
    hide BoundedJson, ArchiveOf, Path, Digest, BlobName;
  }

  // ---------------------------------------------------------------- the documents

  function Descriptor(k: nat): map<string, Json>
    requires k < 10
  {
    map["digest" := Str(Digest(k)), "size" := Int(1)]
  }

  function ImageManifest(config: nat): map<string, Json>
    requires config < 10
  {
    map["schemaVersion" := Int(2), "config" := Obj(Descriptor(config))]
  }

  function Labels(request: Request): map<string, Json> {
    map[
      "org.opencontainers.image.title" := Str(request.imageTitle),
      "org.opencontainers.image.version" := Str(request.version),
      "org.opencontainers.image.revision" := Str(request.commitSha)]
  }

  function Settings(request: Request): map<string, Json> {
    map["User" := Str("65532:65532"), "Labels" := Obj(Labels(request))]
  }

  function Configuration(request: Request, platform: Platform): map<string, Json> {
    map["os" := Str("linux"), "architecture" := Str(ArchitectureName(platform)), "config" := Obj(Settings(request))]
  }

  const SPDX_TYPE := SPDX_PREFIX + "Document"
  const SLSA_TYPE := SLSA_PREFIX + "v1"

  function Annotated(k: nat, predicateType: string): map<string, Json>
    requires k < 10
  {
    map["digest" := Str(Digest(k)), "size" := Int(1),
        "annotations" := Obj(map["in-toto.io/predicate-type" := Str(predicateType)])]
  }

  function Layers(): seq<Json> {
    [Obj(Annotated(5, SPDX_TYPE)), Obj(Annotated(6, SLSA_TYPE))]
  }

  function Sbom(): map<string, Json> {
    map["predicateType" := Str(SPDX_TYPE),
        "predicate" := Obj(map["spdxVersion" := Str("SPDX-2.3"), "dataLicense" := Str("CC0-1.0")])]
  }

  function BuildRequest(request: Request): map<string, Json> {
    map["args" := Obj(map["build-arg:VCS_REF" := Str(request.commitSha)]),
        "root" := Obj(map["request" := Obj(map["args" := Obj(map["vcs:revision" := Str(request.commitSha)])])])]
  }

  function Details(): map<string, Json> {
    map["metadata" := Obj(map["buildkit_metadata" := Obj(map[])])]
  }

  function Definition(request: Request): map<string, Json> {
    map["externalParameters" := Obj(map["request" := Obj(BuildRequest(request))])]
  }

  function Provenance(request: Request): map<string, Json> {
    map["predicateType" := Str(SLSA_TYPE),
        "predicate" := Obj(map["buildDefinition" := Obj(Definition(request)), "runDetails" := Obj(Details())])]
  }

  function Documents(request: Request): seq<map<string, Json>> {
    [ImageManifest(1), Configuration(request, Amd64), ImageManifest(3), Configuration(request, Arm64),
     map["layers" := Arr(Layers())], Sbom(), Provenance(request)]
  }

  function ImageDescriptor(k: nat, platform: Platform): map<string, Json>
    requires k < 10
  {
    map["digest" := Str(Digest(k)), "size" := Int(1),
        "platform" := Obj(map["os" := Str("linux"), "architecture" := Str(ArchitectureName(platform))])]
  }

  function References(k: nat): map<string, Json>
    requires k < 10
  {
    map["vnd.docker.reference.type" := Str("attestation-manifest"), "vnd.docker.reference.digest" := Str(Digest(k))]
  }

  function AttestationDescriptor(k: nat): map<string, Json>
    requires k < 10
  {
    map["digest" := Str(Digest(4)), "size" := Int(1),
        "platform" := Obj(map["os" := Str("unknown"), "architecture" := Str("unknown")]),
        "annotations" := Obj(References(k))]
  }

  function Descriptors(): seq<Json> {
    [Obj(ImageDescriptor(0, Amd64)), Obj(ImageDescriptor(2, Arm64)), Obj(AttestationDescriptor(0)),
     Obj(AttestationDescriptor(2))]
  }

  // ---------------------------------------------------------------- each check passes

  lemma ImageFields(k: nat, platform: Platform)
    requires k < 10
    ensures Describes(ImageDescriptor(k, platform), k)
    ensures KindOf(Obj(ImageDescriptor(k, platform))) == Image(platform)
  {
    hide Digest;
  }

  lemma CheckPasses(archive: Archive, request: Request, k: nat, platform: Platform)
    requires k + 1 < 10
    requires DescriptorJson(archive, ImageDescriptor(k, platform), MAX_INDEX_BYTES) == Ok(ImageManifest(k + 1))
    requires ImageConfig(archive, ImageManifest(k + 1)) == Ok(Configuration(request, platform))
    ensures CheckImage(archive, request, ImageDescriptor(k, platform), platform) == Ok(Digest(k))
  {
    ImageFields(k, platform);
    ConfigurationPasses(request, platform);
    hide DescriptorJson, ImageConfig, ImageManifest, ImageDescriptor, ConfigAccepted, Configuration, Digest;
  }

  lemma ImagePasses(request: Request, platform: Platform, k: nat)
    requires k == if platform.Amd64? then 0 else 2
    ensures KindOf(Obj(ImageDescriptor(k, platform))) == Image(platform)
    ensures CheckImage(ArchiveOf(Documents(request)), request, ImageDescriptor(k, platform), platform) == Ok(Digest(k))
  {
    var archive, documents := ArchiveOf(Documents(request)), Documents(request);
    assert documents[k] == ImageManifest(k + 1) && documents[k + 1] == Configuration(request, platform);
    hide ArchiveOf, Documents, BoundedJson, DescriptorJson, ImageConfig, Digest, Path, BlobName, ImageManifest, Configuration;
    hide ImageDescriptor, CheckImage, KindOf;
    ImageFields(k, platform);
    DescriptorReads(documents, ImageDescriptor(k, platform), k, MAX_INDEX_BYTES);
    BlobReads(documents, k + 1, MAX_INDEX_BYTES);
    DigestNamesPath(k + 1);
    ConfigIsFound(archive, k + 1, Configuration(request, platform));
    CheckPasses(archive, request, k, platform);
  }

  lemma ConfigIsFound(archive: Archive, k: nat, configuration: map<string, Json>)
    requires k < 10 && BlobName(Digest(k)) == Some(Path(k))
    requires BoundedJson(archive, Path(k), Some(1), MAX_INDEX_BYTES) == Ok(configuration)
    ensures ImageConfig(archive, ImageManifest(k)) == Ok(configuration)
  {
    hide BoundedJson, Digest, Path, BlobName;
  }

  lemma ConfigurationPasses(request: Request, platform: Platform)
    ensures ConfigAccepted(Configuration(request, platform), platform, request)
  {
    assert LabelsMatch(Obj(Labels(request)), request);
    hide LabelsMatch, Labels;
  }

  lemma SbomPasses()
    ensures SbomAccepted(Sbom(), SPDX_TYPE)
  {
    hide StartsWith;
    assert ["predicate"][1..] == [];
    assert ObjectAt(Sbom(), ["predicate"]) == Some(map["spdxVersion" := Str("SPDX-2.3"), "dataLicense" := Str("CC0-1.0")]);
    VersionStarts();
  }

  lemma VersionStarts()
    ensures StartsWith("SPDX-2.3", "SPDX-")
  {
    assert "SPDX-2.3"[..5] == "SPDX-";
  }

  lemma PathStep(members: map<string, Json>, key: string, inner: map<string, Json>, rest: seq<string>)
    requires Get(members, key) == Obj(inner)
    ensures ObjectAt(members, [key] + rest) == ObjectAt(inner, rest)
  {
    assert ([key] + rest)[1..] == rest;
  }

  lemma RequestIsAt(request: Request, rest: seq<string>)
    ensures ObjectAt(Provenance(request), REQUEST_PATH + rest) == ObjectAt(BuildRequest(request), rest)
  {
    hide ObjectAt, BuildRequest;
    var body := map["buildDefinition" := Obj(Definition(request)), "runDetails" := Obj(Details())];
    var parameters := map["request" := Obj(BuildRequest(request))];
    PathStep(Provenance(request), "predicate", body, ["buildDefinition", "externalParameters", "request"] + rest);
    PathStep(body, "buildDefinition", Definition(request), ["externalParameters", "request"] + rest);
    PathStep(Definition(request), "externalParameters", parameters, ["request"] + rest);
    PathStep(parameters, "request", BuildRequest(request), rest);
    assert ["predicate"] + (["buildDefinition", "externalParameters", "request"] + rest) == REQUEST_PATH + rest;
    assert ["buildDefinition"] + (["externalParameters", "request"] + rest)
        == ["buildDefinition", "externalParameters", "request"] + rest;
    assert ["externalParameters"] + (["request"] + rest) == ["externalParameters", "request"] + rest;
  }

  lemma ArgumentsAreAt(request: Request)
    ensures ObjectAt(Provenance(request), REQUEST_PATH + ["args"])
         == Some(map["build-arg:VCS_REF" := Str(request.commitSha)])
    ensures ObjectAt(Provenance(request), REQUEST_PATH + ["root", "request", "args"])
         == Some(map["vcs:revision" := Str(request.commitSha)])
  {
    var last := map["vcs:revision" := Str(request.commitSha)];
    var middle := map["args" := Obj(last)];
    RequestIsAt(request, ["args"]);
    RequestIsAt(request, ["root", "request", "args"]);
    NothingLeft(last);
    NothingLeft(map["build-arg:VCS_REF" := Str(request.commitSha)]);
    hide ObjectAt, Provenance;
    PathStep(BuildRequest(request), "args", map["build-arg:VCS_REF" := Str(request.commitSha)], []);
    PathStep(BuildRequest(request), "root", map["request" := Obj(middle)], ["request", "args"]);
    PathStep(map["request" := Obj(middle)], "request", middle, ["args"]);
    PathStep(middle, "args", last, []);
    assert ["root"] + ["request", "args"] == ["root", "request", "args"];
    assert ["request"] + ["args"] == ["request", "args"] && ["args"] + [] == ["args"];
  }

  lemma NothingLeft(members: map<string, Json>)
    ensures ObjectAt(members, []) == Some(members)
  {
  }

  lemma MetadataIsAt(request: Request)
    ensures ObjectAt(Provenance(request), ["predicate", "runDetails", "metadata", "buildkit_metadata"]) == Some(map[])
  {
    var body := map["buildDefinition" := Obj(Definition(request)), "runDetails" := Obj(Details())];
    var metadata := map["buildkit_metadata" := Obj(map[])];
    NothingLeft(map[]);
    hide ObjectAt, Definition;
    PathStep(Provenance(request), "predicate", body, ["runDetails", "metadata", "buildkit_metadata"]);
    PathStep(body, "runDetails", Details(), ["metadata", "buildkit_metadata"]);
    PathStep(Details(), "metadata", metadata, ["buildkit_metadata"]);
    PathStep(metadata, "buildkit_metadata", map[], []);
    assert ["predicate"] + ["runDetails", "metadata", "buildkit_metadata"]
        == ["predicate", "runDetails", "metadata", "buildkit_metadata"];
    assert ["runDetails"] + ["metadata", "buildkit_metadata"] == ["runDetails", "metadata", "buildkit_metadata"];
    assert ["metadata"] + ["buildkit_metadata"] == ["metadata", "buildkit_metadata"];
    assert ["buildkit_metadata"] + [] == ["buildkit_metadata"];
  }

  lemma ProvenancePasses(request: Request)
    ensures ProvenanceAccepted(Provenance(request), SLSA_TYPE, request.commitSha)
  {
    ArgumentsAreAt(request);
    MetadataIsAt(request);
    assert Get(Provenance(request), "predicateType") == Str(SLSA_TYPE);
    hide ObjectAt, Provenance;
  }

  lemma PrefixesDiffer()
    ensures StartsWith(SPDX_TYPE, SPDX_PREFIX) && !StartsWith(SPDX_TYPE, SLSA_PREFIX)
    ensures StartsWith(SLSA_TYPE, SLSA_PREFIX) && !StartsWith(SLSA_TYPE, SPDX_PREFIX)
  {
    assert SPDX_TYPE[9] == 'p' && SLSA_TYPE[9] == 'l';
    assert SPDX_PREFIX[9] == 'p' && SLSA_PREFIX[9] == 'l';
    PrefixAgrees(SPDX_TYPE, SLSA_PREFIX, 9);
    PrefixAgrees(SLSA_TYPE, SPDX_PREFIX, 9);
  }

  lemma PrefixAgrees(text: string, prefix: string, i: nat)
    requires i < |prefix| && i < |text|
    ensures StartsWith(text, prefix) ==> text[i] == prefix[i]
  {
  }

  lemma LayersSplit()
    ensures LayersOf(Layers(), SPDX_PREFIX) == [Layers()[0]] && LayersOf(Layers(), SLSA_PREFIX) == [Layers()[1]]
    ensures PredicateType(Layers()[0]) == Str(SPDX_TYPE) && PredicateType(Layers()[1]) == Str(SLSA_TYPE)
  {
    PrefixesDiffer();
    hide StartsWith, Digest;
    var layers := Layers();
    assert PredicateType(layers[0]) == Str(SPDX_TYPE) && PredicateType(layers[1]) == Str(SLSA_TYPE);
    hide PredicateType, Layers;
    assert layers[1..] == [layers[1]] && layers[1..][1..] == [];
    LayersStep(layers, SPDX_PREFIX);
    LayersStep(layers, SLSA_PREFIX);
    LayersStep(layers[1..], SPDX_PREFIX);
    LayersStep(layers[1..], SLSA_PREFIX);
  }

  lemma LayersStep(layers: seq<Json>, prefix: string)
    requires |layers| > 0 && PredicateType(layers[0]).Str?
    ensures LayersOf(layers, prefix)
         == (if StartsWith(PredicateType(layers[0]).text, prefix) then [layers[0]] else []) + LayersOf(layers[1..], prefix)
    ensures LayersOf([], prefix) == []
  {
    hide StartsWith, PredicateType;
  }

  lemma LayerFields()
    ensures Layers()[0].Obj? && Describes(Layers()[0].members, 5)
    ensures Layers()[1].Obj? && Describes(Layers()[1].members, 6)
  {
    hide Digest;
  }

  lemma LayersDecide(archive: Archive, request: Request)
    requires |Layers()| == 2 && Layers()[0].Obj? && Layers()[1].Obj?
    requires DescriptorJson(archive, Layers()[0].members, MAX_ATTESTATION_BYTES) == Ok(Sbom())
    requires DescriptorJson(archive, Layers()[1].members, MAX_ATTESTATION_BYTES) == Ok(Provenance(request))
    ensures LayersAccepted(archive, request, Layers())
  {
    hide DescriptorJson, LayersOf, PredicateType, Layers, SbomAccepted, ProvenanceAccepted, Sbom, Provenance;
    LayersSplit();
    SbomPasses();
    ProvenancePasses(request);
  }

  lemma LayersPass(request: Request)
    ensures LayersAccepted(ArchiveOf(Documents(request)), request, Layers())
  {
    var archive, documents := ArchiveOf(Documents(request)), Documents(request);
    assert documents[5] == Sbom() && documents[6] == Provenance(request) && |Layers()| == 2;
    hide ArchiveOf, Documents, DescriptorJson, Layers, Sbom, Provenance, Digest, LayersAccepted;
    LayerFields();
    DescriptorReads(documents, Layers()[0].members, 5, MAX_ATTESTATION_BYTES);
    DescriptorReads(documents, Layers()[1].members, 6, MAX_ATTESTATION_BYTES);
    LayersDecide(archive, request);
  }

  lemma AttestationFields(k: nat)
    requires k < 10
    ensures var members := AttestationDescriptor(k);
      && Describes(members, 4) && Get(members, "annotations") == Obj(References(k))
      && KindOf(Obj(members)) == Other
  {
    hide Digest, References;
    KindOfUnknown(AttestationDescriptor(k));
  }

  lemma KindOfUnknown(members: map<string, Json>)
    requires Get(members, "platform") == Obj(map["os" := Str("unknown"), "architecture" := Str("unknown")])
    ensures KindOf(Obj(members)) == Other
  {
    assert "unknown"[0] == 'u' && "linux"[0] == 'l';
  }

  lemma ReferenceFields(k: nat)
    requires k < 10
    ensures Get(References(k), "vnd.docker.reference.type") == Str("attestation-manifest")
    ensures Get(References(k), "vnd.docker.reference.digest") == Str(Digest(k))
  {
    hide Digest;
  }

  lemma AttestationDecides(archive: Archive, request: Request, k: nat, digests: set<string>, manifest: map<string, Json>)
    requires k < 10 && Digest(k) in digests
    requires DescriptorJson(archive, AttestationDescriptor(k), MAX_INDEX_BYTES) == Ok(manifest)
    requires Get(manifest, "layers") == Arr(Layers()) && LayersAccepted(archive, request, Layers())
    ensures CheckAttestation(archive, request, Obj(AttestationDescriptor(k)), digests) == Ok(Digest(k))
  {
    AttestationFields(k);
    ReferenceFields(k);
    hide DescriptorJson, LayersAccepted, Layers, Digest, References, AttestationDescriptor, KindOf;
  }

  lemma AttestationPasses(request: Request, k: nat, digests: set<string>)
    requires k < 10 && Digest(k) in digests
    ensures KindOf(Obj(AttestationDescriptor(k))) == Other
    ensures CheckAttestation(ArchiveOf(Documents(request)), request, Obj(AttestationDescriptor(k)), digests) == Ok(Digest(k))
  {
    var archive, documents := ArchiveOf(Documents(request)), Documents(request);
    assert Get(documents[4], "layers") == Arr(Layers());
    hide ArchiveOf, Documents, DescriptorJson, LayersAccepted, Layers, Digest, AttestationDescriptor, KindOf, CheckAttestation;
    LayersPass(request);
    AttestationFields(k);
    DescriptorReads(documents, AttestationDescriptor(k), 4, MAX_INDEX_BYTES);
    AttestationDecides(archive, request, k, digests, documents[4]);
  }

  // ---------------------------------------------------------------- the list is accepted

  lemma ClassifyImage(archive: Archive, request: Request, descriptors: seq<Json>, found: Found, platform: Platform, digest: string)
    requires |descriptors| > 0 && descriptors[0].Obj? && KindOf(descriptors[0]) == Image(platform)
    requires platform !in found.platforms
    requires CheckImage(archive, request, descriptors[0].members, platform) == Ok(digest)
    ensures Classify(archive, request, descriptors, found)
         == Classify(archive, request, descriptors[1..], found.(platforms := found.platforms[platform := digest]))
  {
    hide KindOf, CheckImage;
  }

  lemma ClassifyOther(archive: Archive, request: Request, descriptors: seq<Json>, found: Found)
    requires |descriptors| > 0 && KindOf(descriptors[0]) == Other
    ensures Classify(archive, request, descriptors, found)
         == Classify(archive, request, descriptors[1..], found.(attestations := found.attestations + [descriptors[0]]))
  {
    hide KindOf, CheckImage;
  }

  lemma DigestsDiffer()
    ensures Digest(0) != Digest(2)
  {
    assert Digest(0)[|DIGEST_PREFIX|] == '0' && Digest(2)[|DIGEST_PREFIX|] == '2';
  }

  lemma Classified(archive: Archive, request: Request)
    requires archive == ArchiveOf(Documents(request))
    ensures Classify(archive, request, Descriptors(), Found(map[], []))
         == Ok(Found(map[Amd64 := Digest(0), Arm64 := Digest(2)],
                     [Obj(AttestationDescriptor(0)), Obj(AttestationDescriptor(2))]))
  {
    hide ArchiveOf, Documents, KindOf, CheckImage, CheckAttestation, Digest, Classify, ImageDescriptor, AttestationDescriptor;
    ImagePasses(request, Amd64, 0);
    ImagePasses(request, Arm64, 2);
    AttestationPasses(request, 0, {Digest(0)});
    AttestationPasses(request, 2, {Digest(2)});
    var all, a, b := Descriptors(), Obj(AttestationDescriptor(0)), Obj(AttestationDescriptor(2));
    var first := Found(map[Amd64 := Digest(0)], []);
    var second := Found(map[Amd64 := Digest(0), Arm64 := Digest(2)], []);
    ClassifyImage(archive, request, all, Found(map[], []), Amd64, Digest(0));
    assert map[][Amd64 := Digest(0)] == map[Amd64 := Digest(0)];
    ClassifyImage(archive, request, all[1..], first, Arm64, Digest(2));
    assert map[Amd64 := Digest(0)][Arm64 := Digest(2)] == map[Amd64 := Digest(0), Arm64 := Digest(2)];
    assert all[1..][1..] == [a, b];
    ClassifyTwoOthers(archive, request, a, b, second);
  }

  lemma ClassifyTwoOthers(archive: Archive, request: Request, a: Json, b: Json, found: Found)
    requires KindOf(a) == Other && KindOf(b) == Other && found.attestations == []
    ensures Classify(archive, request, [a, b], found) == Ok(found.(attestations := [a, b]))
  {
    hide KindOf, Classify;
    assert [a, b][1..] == [b] && [b][1..] == [];
    ClassifyOther(archive, request, [a, b], found);
    assert [] + [a] == [a];
    ClassifyOther(archive, request, [b], found.(attestations := [a]));
    assert [a] + [b] == [a, b];
    ClassifyNothing(archive, request, found.(attestations := [a, b]));
  }

  lemma ClassifyNothing(archive: Archive, request: Request, found: Found)
    ensures Classify(archive, request, [], found) == Ok(found)
  {
  }

  lemma AttestTwo(archive: Archive, request: Request, a: Json, b: Json, first: string, second: string)
    requires a.Obj? && b.Obj? && first != second
    requires CheckAttestation(archive, request, a, {first, second}) == Ok(first)
    requires CheckAttestation(archive, request, b, {first, second}) == Ok(second)
    ensures Attest(archive, request, [a, b], {first, second}, {}) == Ok({first, second})
  {
    hide CheckAttestation;
    var digests := {first, second};
    assert [a, b][1..] == [b] && [b][1..] == [];
    assert Attest(archive, request, [b], digests, {first}) == Ok({first} + {second});
    assert {} + {first} == {first} && {first} + {second} == digests;
  }

  lemma BothValues(platforms: map<Platform, string>, first: string, second: string)
    requires platforms == map[Amd64 := first, Arm64 := second]
    ensures platforms.Values == {first, second} && platforms.Keys == {Amd64, Arm64}
  {
    assert Amd64 in platforms && Arm64 in platforms;
    assert platforms[Amd64] == first && platforms[Arm64] == second;
  }

  /** Every request has an archive and a list of descriptors that are accepted. */
  lemma EveryRequestHasAnAcceptedArchive(request: Request) returns (archive: Archive, descriptors: seq<Json>)
    ensures VerifyDescriptors(archive, request, descriptors).Ok?
  {
    archive, descriptors := ArchiveOf(Documents(request)), Descriptors();
    hide ArchiveOf, Documents, Digest, Classify, Attest, Descriptors, AttestationDescriptor, CheckAttestation, KindOf;
    var a, b, first, second := Obj(AttestationDescriptor(0)), Obj(AttestationDescriptor(2)), Digest(0), Digest(2);
    Classified(archive, request);
    DigestsDiffer();
    AttestationPasses(request, 0, {first, second});
    AttestationPasses(request, 2, {first, second});
    AttestTwo(archive, request, a, b, first, second);
    BothValues(map[Amd64 := first, Arm64 := second], first, second);
  }
}

/** What an accepted archive holds, field by field, and the whole verifier of
    scripts/verify-oci-layout.py. */
module OciAcceptance {
  import opened Bytes
  import opened Json
  import opened OciLayout
  import opened Sequences
  import opened Wrappers

  // ---------------------------------------------------------------- values by path

  /** The value under a path of keys; a missing step reads as null. */
  function At(json: Json, path: seq<string>): Json
    decreases |path|
  {
    if |path| == 0 then json
    else if json.Obj? && path[0] in json.members then At(json.members[path[0]], path[1..])
    else Null
  }

  lemma AtKey(members: map<string, Json>, key: string)
    ensures At(Obj(members), [key]) == Get(members, key)
  {
    assert [key][1..] == [];
  }

  lemma AtCons(json: Json, key: string, rest: seq<string>)
    ensures At(json, [key] + rest) == if json.Obj? && key in json.members then At(json.members[key], rest) else Null
  {
    assert ([key] + rest)[1..] == rest;
  }

  lemma {:induction false} AtNothing(path: seq<string>)
    ensures At(Null, path) == Null
  {
  }

  lemma {:induction false} AtAppend(json: Json, path: seq<string>, rest: seq<string>)
    ensures At(json, path + rest) == At(At(json, path), rest)
    decreases |path|
  {
    if |path| == 0 {
      assert path + rest == rest;
    } else {
      assert path + rest == [path[0]] + (path[1..] + rest);
      AtCons(json, path[0], path[1..] + rest);
      assert path == [path[0]] + path[1..];
      if json.Obj? && path[0] in json.members {
        AtAppend(json.members[path[0]], path[1..], rest);
      } else {
        AtNothing(rest);
      }
    }
  }

  lemma {:induction false} ObjectIsAt(members: map<string, Json>, path: seq<string>)
    ensures ObjectAt(members, path) == if At(Obj(members), path).Obj? then Some(At(Obj(members), path).members) else None
    decreases |path|
  {
    if |path| > 0 {
      var next := Get(members, path[0]);
      if next.Obj? {
        ObjectIsAt(next.members, path[1..]);
      } else if path[0] in members {
        NothingUnderALeaf(members[path[0]], path[1..]);
      }
    }
  }

  lemma NothingUnderALeaf(json: Json, path: seq<string>)
    requires !json.Obj?
    ensures !At(json, path).Obj?
  {
  }

  // ---------------------------------------------------------------- documents by digest

  predicate IsHexDigit(c: char) {
    '0' <= c <= '9' || 'a' <= c <= 'f'
  }

  /** The file under the descriptor's digest: it has the declared size within the bound, its bytes
      hash to the digest and read as the object. */
  predicate Holds(archive: Archive, descriptor: Json, maxBytes: nat, document: map<string, Json>) {
    && At(descriptor, ["digest"]).Str?
    && var digest := At(descriptor, ["digest"]).text;
    && |digest| == 71 && digest[..7] == "sha256:"
    && (forall i :: 7 <= i < 71 ==> IsHexDigit(digest[i]))
    && "blobs/sha256/" + digest[7..] in archive.members
    && var file := archive.members["blobs/sha256/" + digest[7..]];
    && file.isFile && 0 < file.size <= maxBytes
    && (At(descriptor, ["size"]) == Int(file.size) || (At(descriptor, ["size"]) == Bool(true) && file.size == 1))
    && |file.content| == file.size
    && archive.sha256(file.content) == digest[7..]
    && archive.parse(file.content) == Some(Obj(document))
  }

  predicate HoldsIndex(archive: Archive, document: map<string, Json>) {
    && "index.json" in archive.members
    && var file := archive.members["index.json"];
    && file.isFile && 0 < file.size <= 1048576
    && |file.content| == file.size
    && archive.parse(file.content) == Some(Obj(document))
  }

  lemma NameOfDigest(digest: string)
    ensures BlobName(digest).Some? <==>
            |digest| == 71 && digest[..7] == "sha256:" && forall i :: 7 <= i < 71 ==> IsHexDigit(digest[i])
    ensures BlobName(digest).Some? ==> BlobName(digest).value == "blobs/sha256/" + digest[7..]
  {
    if |digest| == 71 {
      assert forall i :: 0 <= i < 64 ==> digest[7..][i] == digest[7 + i];
      assert forall i :: 7 <= i < 71 ==> digest[i] == digest[7..][i - 7];
    }
  }

  lemma BlobReads(archive: Archive, hex: string, size: Option<int>, maxBytes: nat, document: map<string, Json>)
    ensures BoundedJson(archive, "blobs/sha256/" + hex, size, maxBytes) == Ok(document) <==>
            && "blobs/sha256/" + hex in archive.members
            && var file := archive.members["blobs/sha256/" + hex];
            && file.isFile && 0 < file.size <= maxBytes
            && (size.None? || size == Some(file.size))
            && |file.content| == file.size
            && archive.sha256(file.content) == hex
            && archive.parse(file.content) == Some(Obj(document))
  {
    var name := "blobs/sha256/" + hex;
    assert name[..13] == "blobs/sha256/" && name[13..] == hex;
  }

  /** Reading a descriptor succeeds exactly when the archive holds its document. */
  lemma DescriptorReadsExactly(archive: Archive, descriptor: map<string, Json>, maxBytes: nat,
                               document: map<string, Json>)
    ensures DescriptorJson(archive, descriptor, maxBytes) == Ok(document) <==>
            Holds(archive, Obj(descriptor), maxBytes, document)
  {
    hide BoundedJson, BlobName, At, IsHexDigit;
    AtKey(descriptor, "digest");
    AtKey(descriptor, "size");
    var digest, size := Get(descriptor, "digest"), Get(descriptor, "size");
    if digest.Str? {
      NameOfDigest(digest.text);
      if BlobName(digest.text).Some? && AsInt(size).Some? {
        BlobReads(archive, digest.text[7..], AsInt(size), maxBytes, document);
      }
    }
  }

  lemma IndexReadsExactly(archive: Archive, document: map<string, Json>)
    ensures BoundedJson(archive, "index.json", None, MAX_INDEX_BYTES) == Ok(document) <==> HoldsIndex(archive, document)
  {
    assert "index.json"[0] != "blobs/sha256/"[0];
    assert !StartsWith("index.json", BLOB_PREFIX);
  }

  // ---------------------------------------------------------------- one image

  predicate IsSchemaTwo(document: map<string, Json>) {
    At(Obj(document), ["schemaVersion"]) in {Int(2), Float(2.0)}
  }

  /** The image configuration is for the platform, runs as the fixed user and carries the three labels
      of the request. */
  predicate IsConfigured(config: Json, architecture: string, request: Request) {
    && At(config, ["os"]) == Str("linux")
    && At(config, ["architecture"]) == Str(architecture)
    && At(config, ["config", "User"]) == Str("65532:65532")
    && At(config, ["config", "Labels", "org.opencontainers.image.title"]) == Str(request.imageTitle)
    && At(config, ["config", "Labels", "org.opencontainers.image.version"]) == Str(request.version)
    && At(config, ["config", "Labels", "org.opencontainers.image.revision"]) == Str(request.commitSha)
  }

  /** An image descriptor: its manifest and the configuration named there are held under their digests. */
  ghost predicate IsImage(archive: Archive, request: Request, descriptor: Json, architecture: string, digest: string) {
    && At(descriptor, ["platform", "os"]) == Str("linux")
    && At(descriptor, ["platform", "architecture"]) == Str(architecture)
    && At(descriptor, ["digest"]) == Str(digest)
    && exists manifest, config ::
         && Holds(archive, descriptor, 1048576, manifest)
         && IsSchemaTwo(manifest)
         && Holds(archive, At(Obj(manifest), ["config"]), 1048576, config)
         && IsConfigured(Obj(config), architecture, request)
  }

  lemma HoldersAreObjects(archive: Archive, descriptor: Json, maxBytes: nat, document: map<string, Json>)
    requires Holds(archive, descriptor, maxBytes, document)
    ensures descriptor.Obj?
  {
  }

  lemma HeldIsOne(archive: Archive, descriptor: Json, maxBytes: nat, first: map<string, Json>, second: map<string, Json>)
    requires Holds(archive, descriptor, maxBytes, first) && Holds(archive, descriptor, maxBytes, second)
    ensures first == second
  {
    hide At, IsHexDigit;
  }

  lemma SchemaIsTwo(document: map<string, Json>)
    ensures IsNumber(Get(document, "schemaVersion"), 2) <==> IsSchemaTwo(document)
  {
    AtKey(document, "schemaVersion");
  }

  lemma AtTwo(members: map<string, Json>, first: string, second: string)
    ensures At(Obj(members), [first, second])
         == if Get(members, first).Obj? then Get(Get(members, first).members, second) else Null
  {
    hide At;
    AtCons(Obj(members), first, [second]);
    assert [first] + [second] == [first, second];
    if first in members {
      if members[first].Obj? {
        AtKey(members[first].members, second);
      } else {
        AtLeaf(members[first], second, []);
      }
    }
  }

  lemma AtThree(members: map<string, Json>, first: string, second: string, third: string)
    ensures At(Obj(members), [first, second, third])
         == if Get(members, first).Obj? then At(Get(members, first), [second, third]) else Null
  {
    hide At;
    AtCons(Obj(members), first, [second, third]);
    assert [first] + [second, third] == [first, second, third];
    if first in members && !members[first].Obj? {
      AtLeaf(members[first], second, [third]);
    }
  }

  lemma AtLeaf(json: Json, key: string, rest: seq<string>)
    requires !json.Obj?
    ensures At(json, [key] + rest) == Null
    ensures rest == [] ==> At(json, [key]) == Null
    ensures |rest| == 1 ==> At(json, [key, rest[0]]) == Null
  {
  }

  lemma LabelsMatchExactly(labels: Json, request: Request)
    ensures LabelsMatch(labels, request) <==>
            && At(labels, ["org.opencontainers.image.title"]) == Str(request.imageTitle)
            && At(labels, ["org.opencontainers.image.version"]) == Str(request.version)
            && At(labels, ["org.opencontainers.image.revision"]) == Str(request.commitSha)
  {
    hide At;
    if labels.Obj? {
      AtKey(labels.members, "org.opencontainers.image.title");
      AtKey(labels.members, "org.opencontainers.image.version");
      AtKey(labels.members, "org.opencontainers.image.revision");
    } else {
      AtLeaf(labels, "org.opencontainers.image.title", []);
    }
  }

  lemma LabelAt(config: map<string, Json>, label_: string)
    ensures At(Obj(config), ["config", "Labels", label_])
         == if Get(config, "config").Obj? then At(Get(Get(config, "config").members, "Labels"), [label_]) else Null
  {
    hide At;
    AtThree(config, "config", "Labels", label_);
    if Get(config, "config").Obj? {
      AtTwo(Get(config, "config").members, "Labels", label_);
      var labels := Get(Get(config, "config").members, "Labels");
      if labels.Obj? {
        AtKey(labels.members, label_);
      } else {
        AtLeaf(labels, label_, []);
      }
    }
  }

  lemma ConfiguredExactly(config: map<string, Json>, platform: Platform, request: Request)
    ensures ConfigAccepted(config, platform, request) <==>
            IsConfigured(Obj(config), if platform.Amd64? then "amd64" else "arm64", request)
  {
    hide At, LabelsMatch;
    AtKey(config, "os");
    AtKey(config, "architecture");
    AtTwo(config, "config", "User");
    LabelAt(config, "org.opencontainers.image.title");
    LabelAt(config, "org.opencontainers.image.version");
    LabelAt(config, "org.opencontainers.image.revision");
    if Get(config, "config").Obj? {
      LabelsMatchExactly(Get(Get(config, "config").members, "Labels"), request);
    }
  }

  lemma ImageConfigReadsExactly(archive: Archive, manifest: map<string, Json>, config: map<string, Json>)
    ensures ImageConfig(archive, manifest) == Ok(config) <==>
            IsSchemaTwo(manifest) && Holds(archive, At(Obj(manifest), ["config"]), 1048576, config)
  {
    hide At, Holds, BoundedJson, BlobName, IsSchemaTwo;
    SchemaIsTwo(manifest);
    AtKey(manifest, "config");
    var descriptor := Get(manifest, "config");
    if descriptor.Obj? {
      DescriptorReadsExactly(archive, descriptor.members, MAX_INDEX_BYTES, config);
    } else if Holds(archive, descriptor, 1048576, config) {
      HoldersAreObjects(archive, descriptor, 1048576, config);
    }
  }

  lemma CheckedExactly(archive: Archive, request: Request, descriptor: map<string, Json>, platform: Platform,
                       digest: string)
    ensures CheckImage(archive, request, descriptor, platform) == Ok(digest) <==>
            && At(Obj(descriptor), ["digest"]) == Str(digest)
            && exists manifest, config ::
                 && Holds(archive, Obj(descriptor), 1048576, manifest)
                 && IsSchemaTwo(manifest)
                 && Holds(archive, At(Obj(manifest), ["config"]), 1048576, config)
                 && IsConfigured(Obj(config), if platform.Amd64? then "amd64" else "arm64", request)
  {
    hide At, Holds, DescriptorJson, ImageConfig, ConfigAccepted, IsConfigured, IsSchemaTwo;
    AtKey(descriptor, "digest");
    forall manifest ensures DescriptorJson(archive, descriptor, MAX_INDEX_BYTES) == Ok(manifest) <==>
                            Holds(archive, Obj(descriptor), 1048576, manifest)
    {
      DescriptorReadsExactly(archive, descriptor, MAX_INDEX_BYTES, manifest);
    }
    forall manifest, config ensures ImageConfig(archive, manifest) == Ok(config) <==>
        IsSchemaTwo(manifest) && Holds(archive, At(Obj(manifest), ["config"]), 1048576, config)
    {
      ImageConfigReadsExactly(archive, manifest, config);
    }
    forall config ensures ConfigAccepted(config, platform, request) <==>
                          IsConfigured(Obj(config), if platform.Amd64? then "amd64" else "arm64", request)
    {
      ConfiguredExactly(config, platform, request);
    }
  }

  /** An image passes the first loop's checks exactly when its own fields and documents are right. */
  lemma ImagePassesExactly(archive: Archive, request: Request, descriptor: Json, platform: Platform, digest: string)
    ensures KindOf(descriptor) == Image(platform) && Checked(archive, request, descriptor, platform) == Some(digest) <==>
            IsImage(archive, request, descriptor, if platform.Amd64? then "amd64" else "arm64", digest)
  {
    hide At, Holds, CheckImage, IsConfigured, IsSchemaTwo;
    if descriptor.Obj? {
      CheckedExactly(archive, request, descriptor.members, platform, digest);
      AtTwo(descriptor.members, "platform", "os");
      AtTwo(descriptor.members, "platform", "architecture");
      assert "amd64"[1] != "arm64"[1];
    } else {
      AtLeaf(descriptor, "digest", []);
    }
  }

  // ---------------------------------------------------------------- one attestation

  /** A descriptor for a platform that is none of the two. */
  predicate IsElsewhere(descriptor: Json) {
    && At(descriptor, ["platform"]).Obj?
    && !At(descriptor, ["platform", "os"]).Arr? && !At(descriptor, ["platform", "os"]).Obj?
    && !At(descriptor, ["platform", "architecture"]).Arr? && !At(descriptor, ["platform", "architecture"]).Obj?
    && (At(descriptor, ["platform", "os"]) == Str("linux") ==>
          At(descriptor, ["platform", "architecture"]) !in {Str("amd64"), Str("arm64")})
  }

  lemma ElsewhereExactly(descriptor: Json)
    ensures KindOf(descriptor) == Other <==> IsElsewhere(descriptor)
  {
    hide At;
    if descriptor.Obj? {
      AtKey(descriptor.members, "platform");
      AtTwo(descriptor.members, "platform", "os");
      AtTwo(descriptor.members, "platform", "architecture");
    } else {
      AtLeaf(descriptor, "platform", []);
    }
  }

  predicate IsAnnotated(layer: Json, prefix: string) {
    var predicateType := At(layer, ["annotations", "in-toto.io/predicate-type"]);
    predicateType.Str? && prefix <= predicateType.text
  }

  /** The one layer whose predicate type begins with the prefix. */
  predicate OnlyAt(layers: seq<Json>, prefix: string, i: nat) {
    && i < |layers| && IsAnnotated(layers[i], prefix)
    && forall j :: 0 <= j < |layers| && IsAnnotated(layers[j], prefix) ==> j == i
  }

  predicate IsSbom(statement: Json, predicateType: Json) {
    && At(statement, ["predicateType"]) == predicateType
    && At(statement, ["predicate", "spdxVersion"]).Str?
    && "SPDX-" <= At(statement, ["predicate", "spdxVersion"]).text
    && At(statement, ["predicate", "dataLicense"]) == Str("CC0-1.0")
  }

  /** Both revisions are the commit, and the third is the commit if it is there. */
  predicate IsProvenance(statement: Json, predicateType: Json, commitSha: string) {
    && At(statement, ["predicateType"]) == predicateType
    && At(statement, ["predicate", "buildDefinition", "externalParameters", "request", "args",
                      "build-arg:VCS_REF"]) == Str(commitSha)
    && At(statement, ["predicate", "buildDefinition", "externalParameters", "request", "root", "request", "args",
                      "vcs:revision"]) == Str(commitSha)
    && At(statement, ["predicate", "runDetails", "metadata", "buildkit_metadata"]).Obj?
    && At(statement, ["predicate", "runDetails", "metadata", "buildkit_metadata", "vcs.revision"])
         in {Null, Str(commitSha)}
  }

  /** One SPDX layer and one SLSA layer, both held under their digests, the second for the commit. */
  ghost predicate IsAttested(archive: Archive, request: Request, layers: Json) {
    layers.Arr? && exists i: nat, j: nat, sbom, provenance ::
      && OnlyAt(layers.items, "https://spdx.dev/", i) && OnlyAt(layers.items, "https://slsa.dev/provenance/", j)
      && Holds(archive, layers.items[i], 4194304, sbom) && Holds(archive, layers.items[j], 4194304, provenance)
      && IsSbom(Obj(sbom), At(layers.items[i], ["annotations", "in-toto.io/predicate-type"]))
      && IsProvenance(Obj(provenance), At(layers.items[j], ["annotations", "in-toto.io/predicate-type"]),
                      request.commitSha)
  }

  /** An attestation descriptor for the image with the digest. */
  ghost predicate IsAttestation(archive: Archive, request: Request, descriptor: Json, reference: string) {
    && IsElsewhere(descriptor)
    && At(descriptor, ["annotations", "vnd.docker.reference.type"]) == Str("attestation-manifest")
    && At(descriptor, ["annotations", "vnd.docker.reference.digest"]) == Str(reference)
    && exists manifest ::
         && Holds(archive, descriptor, 1048576, manifest)
         && IsAttested(archive, request, At(Obj(manifest), ["layers"]))
  }

  lemma PrefixExactly(text: string, prefix: string)
    ensures StartsWith(text, prefix) <==> prefix <= text
  {
  }

  lemma AnnotatedExactly(layer: Json, prefix: string)
    ensures PredicateType(layer) == At(layer, ["annotations", "in-toto.io/predicate-type"])
    ensures IsAnnotated(layer, prefix) <==> PredicateType(layer).Str? && StartsWith(PredicateType(layer).text, prefix)
  {
    hide At;
    if layer.Obj? {
      AtTwo(layer.members, "annotations", "in-toto.io/predicate-type");
    } else {
      AtLeaf(layer, "annotations", ["in-toto.io/predicate-type"]);
    }
  }

  lemma {:induction false} NoLayer(layers: seq<Json>, prefix: string)
    ensures LayersOf(layers, prefix) == [] <==> forall j :: 0 <= j < |layers| ==> !IsAnnotated(layers[j], prefix)
  {
    hide IsAnnotated, PredicateType, StartsWith;
    if |layers| > 0 {
      AnnotatedExactly(layers[0], prefix);
      NoLayer(layers[1..], prefix);
      assert forall j :: 1 <= j < |layers| ==> layers[j] == layers[1..][j - 1];
    }
  }

  lemma {:induction false} OneLayer(layers: seq<Json>, prefix: string, i: nat)
    requires OnlyAt(layers, prefix, i)
    ensures LayersOf(layers, prefix) == [layers[i]]
    decreases |layers|
  {
    hide IsAnnotated, PredicateType, StartsWith;
    AnnotatedExactly(layers[0], prefix);
    assert forall j :: 1 <= j < |layers| ==> layers[j] == layers[1..][j - 1];
    if i == 0 {
      NoLayer(layers[1..], prefix);
    } else {
      OneLayer(layers[1..], prefix, i - 1);
    }
  }

  lemma {:induction false} WhereOneLayer(layers: seq<Json>, prefix: string) returns (i: nat)
    requires |LayersOf(layers, prefix)| == 1
    ensures OnlyAt(layers, prefix, i) && LayersOf(layers, prefix) == [layers[i]]
    decreases |layers|
  {
    hide IsAnnotated, PredicateType, StartsWith;
    AnnotatedExactly(layers[0], prefix);
    assert forall j :: 1 <= j < |layers| ==> layers[j] == layers[1..][j - 1];
    if IsAnnotated(layers[0], prefix) {
      i := 0;
      NoLayer(layers[1..], prefix);
    } else {
      i := WhereOneLayer(layers[1..], prefix);
      i := i + 1;
    }
  }

  lemma SbomExactly(statement: map<string, Json>, predicateType: string)
    ensures SbomAccepted(statement, predicateType) <==> IsSbom(Obj(statement), Str(predicateType))
  {
    hide At, ObjectAt;
    AtKey(statement, "predicateType");
    AtKey(statement, "predicate");
    AtTwo(statement, "predicate", "spdxVersion");
    AtTwo(statement, "predicate", "dataLicense");
    ObjectIsAt(statement, ["predicate"]);
  }

  /** A field of the object under a path. */
  lemma FieldAt(statement: map<string, Json>, path: seq<string>, field: string)
    ensures At(Obj(statement), path + [field])
         == if ObjectAt(statement, path).Some? then Get(ObjectAt(statement, path).value, field) else Null
  {
    hide At, ObjectAt;
    AtAppend(Obj(statement), path, [field]);
    ObjectIsAt(statement, path);
    var object_ := At(Obj(statement), path);
    if object_.Obj? {
      AtKey(object_.members, field);
    } else {
      AtLeaf(object_, field, []);
    }
  }

  lemma ProvenanceExactly(statement: map<string, Json>, predicateType: string, commitSha: string)
    ensures ProvenanceAccepted(statement, predicateType, commitSha) <==>
            IsProvenance(Obj(statement), Str(predicateType), commitSha)
  {
    hide At, ObjectAt;
    var arguments := REQUEST_PATH + ["args"];
    var rootArguments := REQUEST_PATH + ["root", "request", "args"];
    var metadata := ["predicate", "runDetails", "metadata", "buildkit_metadata"];
    AtKey(statement, "predicateType");
    FieldAt(statement, arguments, "build-arg:VCS_REF");
    FieldAt(statement, rootArguments, "vcs:revision");
    FieldAt(statement, metadata, "vcs.revision");
    ObjectIsAt(statement, metadata);
    assert arguments + ["build-arg:VCS_REF"]
        == ["predicate", "buildDefinition", "externalParameters", "request", "args", "build-arg:VCS_REF"];
    assert rootArguments + ["vcs:revision"]
        == ["predicate", "buildDefinition", "externalParameters", "request", "root", "request", "args", "vcs:revision"];
    assert metadata + ["vcs.revision"] == ["predicate", "runDetails", "metadata", "buildkit_metadata", "vcs.revision"];
  }

  /** The two layers of an attestation manifest and their statements. */
  lemma LayersAttest(archive: Archive, request: Request, layers: seq<Json>, i: nat, j: nat)
    requires OnlyAt(layers, SPDX_PREFIX, i) && OnlyAt(layers, SLSA_PREFIX, j)
    ensures layers[i].Obj? && layers[j].Obj?
    ensures LayersAccepted(archive, request, layers) <==>
            && var sbom := DescriptorJson(archive, layers[i].members, MAX_ATTESTATION_BYTES);
            && sbom.Ok? && SbomAccepted(sbom.value, PredicateType(layers[i]).text)
            && var statement := DescriptorJson(archive, layers[j].members, MAX_ATTESTATION_BYTES);
            && statement.Ok? && ProvenanceAccepted(statement.value, PredicateType(layers[j]).text, request.commitSha)
  {
    hide DescriptorJson, SbomAccepted, ProvenanceAccepted, At, LayersOf, StartsWith;
    OneLayer(layers, SPDX_PREFIX, i);
    OneLayer(layers, SLSA_PREFIX, j);
    AnnotatedExactly(layers[i], SPDX_PREFIX);
    AnnotatedExactly(layers[j], SLSA_PREFIX);
  }

  lemma SbomHeldExactly(archive: Archive, layer: Json)
    requires layer.Obj? && PredicateType(layer).Str?
    ensures var sbom := DescriptorJson(archive, layer.members, MAX_ATTESTATION_BYTES);
      (sbom.Ok? && SbomAccepted(sbom.value, PredicateType(layer).text)) <==>
      exists document :: Holds(archive, layer, 4194304, document) && IsSbom(Obj(document), PredicateType(layer))
  {
    hide DescriptorJson, SbomAccepted, At, Holds, PredicateType, IsSbom;
    forall document ensures DescriptorJson(archive, layer.members, MAX_ATTESTATION_BYTES) == Ok(document) <==>
                            Holds(archive, layer, 4194304, document)
    {
      DescriptorReadsExactly(archive, layer.members, MAX_ATTESTATION_BYTES, document);
    }
    forall document ensures SbomAccepted(document, PredicateType(layer).text) <==>
                            IsSbom(Obj(document), PredicateType(layer))
    {
      SbomExactly(document, PredicateType(layer).text);
    }
  }

  lemma ProvenanceHeldExactly(archive: Archive, layer: Json, commitSha: string)
    requires layer.Obj? && PredicateType(layer).Str?
    ensures var statement := DescriptorJson(archive, layer.members, MAX_ATTESTATION_BYTES);
      (statement.Ok? && ProvenanceAccepted(statement.value, PredicateType(layer).text, commitSha)) <==>
      exists document ::
        Holds(archive, layer, 4194304, document) && IsProvenance(Obj(document), PredicateType(layer), commitSha)
  {
    hide DescriptorJson, ProvenanceAccepted, At, Holds, PredicateType, IsProvenance;
    forall document ensures DescriptorJson(archive, layer.members, MAX_ATTESTATION_BYTES) == Ok(document) <==>
                            Holds(archive, layer, 4194304, document)
    {
      DescriptorReadsExactly(archive, layer.members, MAX_ATTESTATION_BYTES, document);
    }
    forall document ensures ProvenanceAccepted(document, PredicateType(layer).text, commitSha) <==>
                            IsProvenance(Obj(document), PredicateType(layer), commitSha)
    {
      ProvenanceExactly(document, PredicateType(layer).text, commitSha);
    }
  }

  lemma AttestedAt(archive: Archive, request: Request, layers: seq<Json>, i: nat, j: nat)
    requires OnlyAt(layers, SPDX_PREFIX, i) && OnlyAt(layers, SLSA_PREFIX, j)
    ensures LayersAccepted(archive, request, layers) <==>
            && (exists document :: Holds(archive, layers[i], 4194304, document)
                  && IsSbom(Obj(document), At(layers[i], ["annotations", "in-toto.io/predicate-type"])))
            && (exists document :: Holds(archive, layers[j], 4194304, document)
                  && IsProvenance(Obj(document), At(layers[j], ["annotations", "in-toto.io/predicate-type"]),
                                  request.commitSha))
  {
    hide DescriptorJson, SbomAccepted, ProvenanceAccepted, At, Holds, PredicateType, IsSbom, IsProvenance,
         LayersAccepted, StartsWith;
    LayersAttest(archive, request, layers, i, j);
    AnnotatedExactly(layers[i], SPDX_PREFIX);
    AnnotatedExactly(layers[j], SLSA_PREFIX);
    SbomHeldExactly(archive, layers[i]);
    ProvenanceHeldExactly(archive, layers[j], request.commitSha);
  }

  lemma OnlyOnce(layers: seq<Json>, prefix: string, i: nat, j: nat)
    requires OnlyAt(layers, prefix, i) && OnlyAt(layers, prefix, j)
    ensures i == j
  {
    hide IsAnnotated;
  }

  lemma LayersAreSingle(archive: Archive, request: Request, layers: seq<Json>)
    requires LayersAccepted(archive, request, layers)
    ensures |LayersOf(layers, SPDX_PREFIX)| == 1 && |LayersOf(layers, SLSA_PREFIX)| == 1
  {
    hide DescriptorJson, SbomAccepted, ProvenanceAccepted, LayersOf;
  }

  lemma AttestedExactly(archive: Archive, request: Request, layers: seq<Json>)
    ensures LayersAccepted(archive, request, layers) <==> IsAttested(archive, request, Arr(layers))
  {
    hide At, Holds, IsSbom, IsProvenance, LayersAccepted, IsAnnotated, LayersOf;
    if LayersAccepted(archive, request, layers) {
      LayersAreSingle(archive, request, layers);
      var i := WhereOneLayer(layers, SPDX_PREFIX);
      var j := WhereOneLayer(layers, SLSA_PREFIX);
      IndicesAreIn(layers, i, j);
      AttestedAt(archive, request, layers, i, j);
    }
    if IsAttested(archive, request, Arr(layers)) {
      var i: nat, j: nat, sbom, provenance :|
        && OnlyAt(layers, "https://spdx.dev/", i) && OnlyAt(layers, "https://slsa.dev/provenance/", j)
        && Holds(archive, layers[i], 4194304, sbom) && Holds(archive, layers[j], 4194304, provenance)
        && IsSbom(Obj(sbom), At(layers[i], ["annotations", "in-toto.io/predicate-type"]))
        && IsProvenance(Obj(provenance), At(layers[j], ["annotations", "in-toto.io/predicate-type"]), request.commitSha);
      AttestedAt(archive, request, layers, i, j);
    }
  }

  lemma IndicesAreIn(layers: seq<Json>, i: nat, j: nat)
    requires OnlyAt(layers, SPDX_PREFIX, i) && OnlyAt(layers, SLSA_PREFIX, j)
    ensures i < |layers| && j < |layers|
  {
  }

  /** An attestation passes the second loop's checks exactly when its own fields and documents are
      right and it refers to one of the images. */
  lemma AttestationPassesExactly(archive: Archive, request: Request, descriptor: Json, digests: set<string>,
                                 reference: string)
    ensures KindOf(descriptor) == Other && Reference(archive, request, descriptor, digests) == Some(reference) <==>
            IsAttestation(archive, request, descriptor, reference) && reference in digests
  {
    hide At, Holds, KindOf, IsElsewhere, LayersAccepted, DescriptorJson, IsAttested;
    ElsewhereExactly(descriptor);
    if descriptor.Obj? {
      var members := descriptor.members;
      AtTwo(members, "annotations", "vnd.docker.reference.type");
      AtTwo(members, "annotations", "vnd.docker.reference.digest");
      AtKey(members, "digest");
      forall manifest ensures DescriptorJson(archive, members, MAX_INDEX_BYTES) == Ok(manifest) <==>
                              Holds(archive, descriptor, 1048576, manifest)
      {
        DescriptorReadsExactly(archive, members, MAX_INDEX_BYTES, manifest);
      }
      forall manifest ensures (Get(manifest, "layers").Arr? && LayersAccepted(archive, request, Get(manifest, "layers").items))
                              <==> IsAttested(archive, request, At(Obj(manifest), ["layers"]))
      {
        AtKey(manifest, "layers");
        LayersAttestedExactly(archive, request, Get(manifest, "layers"));
      }
      HeldNamesADigest(archive, descriptor);
    } else {
      AtLeaf(descriptor, "annotations", ["vnd.docker.reference.type"]);
    }
  }

  lemma LayersAttestedExactly(archive: Archive, request: Request, layers: Json)
    ensures layers.Arr? && LayersAccepted(archive, request, layers.items) <==> IsAttested(archive, request, layers)
  {
    hide LayersAccepted, OnlyAt, Holds, IsSbom, IsProvenance, At;
    if layers.Arr? {
      AttestedExactly(archive, request, layers.items);
    }
  }

  lemma HeldNamesADigest(archive: Archive, descriptor: Json)
    ensures forall manifest :: Holds(archive, descriptor, 1048576, manifest) ==> At(descriptor, ["digest"]).Str?
  {
  }

  // ---------------------------------------------------------------- the whole list

  /** In some order: one image for each platform, and one attestation for each of the two images. */
  ghost predicate Accepted(archive: Archive, request: Request, descriptors: seq<Json>, amd64: string, arm64: string) {
    exists first, second, third, fourth ::
      && IsImage(archive, request, first, "amd64", amd64)
      && IsImage(archive, request, second, "arm64", arm64)
      && IsAttestation(archive, request, third, amd64)
      && IsAttestation(archive, request, fourth, arm64)
      && multiset(descriptors) == multiset{first, second, third, fourth}
  }

  lemma {:induction false} KindsTogether(descriptors: seq<Json>)
    requires NoneMalformed(descriptors)
    ensures multiset(descriptors) == multiset(OfKind(descriptors, Image(Amd64)))
                                     + multiset(OfKind(descriptors, Image(Arm64)))
                                     + multiset(OfKind(descriptors, Other))
  {
    hide KindOf, OfKind, NoneMalformed;
    NothingOfKind(Image(Amd64));
    NothingOfKind(Image(Arm64));
    NothingOfKind(Other);
    if |descriptors| == 0 {
      assert descriptors == [];
    } else {
      MalformedCons(descriptors);
      OfKindCons(descriptors, Image(Amd64));
      OfKindCons(descriptors, Image(Arm64));
      OfKindCons(descriptors, Other);
      KindsTogether(descriptors[1..]);
      assert descriptors == [descriptors[0]] + descriptors[1..];
      var kind := KindOf(descriptors[0]);
      assert kind == Other || kind == Image(Amd64) || kind == Image(Arm64) by {
        if kind.Image? {
          assert kind.platform.Amd64? || kind.platform.Arm64?;
        }
      }
    }
  }

  lemma {:induction false} ReferencesTogether(archive: Archive, request: Request, attestations: seq<Json>,
                                              first: string, second: string)
    requires first != second && AllRefer(archive, request, attestations, {first, second})
    ensures multiset(attestations)
         == multiset(Referring(archive, request, attestations, {first, second}, first))
            + multiset(Referring(archive, request, attestations, {first, second}, second))
  {
    hide Reference, Referring, AllRefer;
    var digests := {first, second};
    NothingRefers(archive, request, digests, first);
    NothingRefers(archive, request, digests, second);
    if |attestations| == 0 {
      assert attestations == [];
    } else {
      ReferringCons(archive, request, attestations, digests, first);
      ReferringCons(archive, request, attestations, digests, second);
      ReferenceIsOneOf(archive, request, attestations[0], digests);
      ReferencesTogether(archive, request, attestations[1..], first, second);
      assert attestations == [attestations[0]] + attestations[1..];
    }
  }

  lemma OnlyOne<T>(s: seq<T>)
    requires |s| == 1
    ensures s == [s[0]] && multiset(s) == multiset{s[0]}
  {
    assert s == [s[0]];
  }

  lemma KindIsKept(descriptors: seq<Json>, kind: Kind, i: nat)
    requires i < |OfKind(descriptors, kind)|
    ensures KindOf(OfKind(descriptors, kind)[i]) == kind
  {
    hide KindOf;
    FilterMeans(descriptors, (descriptor: Json) => KindOf(descriptor) == kind);
    assert OfKind(descriptors, kind)[i] in OfKind(descriptors, kind);
  }

  lemma ReferenceIsKept(archive: Archive, request: Request, descriptors: seq<Json>, digests: set<string>, digest: string)
    requires |Referring(archive, request, OfKind(descriptors, Other), digests, digest)| == 1
    ensures var descriptor := Referring(archive, request, OfKind(descriptors, Other), digests, digest)[0];
      KindOf(descriptor) == Other && Reference(archive, request, descriptor, digests) == Some(digest)
  {
    hide KindOf, Reference;
    var others := OfKind(descriptors, Other);
    FilterMeans(others, (descriptor: Json) => Reference(archive, request, descriptor, digests) == Some(digest));
    FilterMeans(descriptors, (descriptor: Json) => KindOf(descriptor) == Other);
    assert Referring(archive, request, others, digests, digest)[0] in Referring(archive, request, others, digests, digest);
  }

  lemma AcceptableIsAccepted(archive: Archive, request: Request, descriptors: seq<Json>, amd64: string, arm64: string)
    requires Acceptable(archive, request, descriptors, amd64, arm64)
    ensures Accepted(archive, request, descriptors, amd64, arm64)
  {
    hide KindOf, OfKind, Checked, Reference, Referring, NoneMalformed, AllRefer, IsImage, IsAttestation;
    var digests, others := {amd64, arm64}, OfKind(descriptors, Other);
    var first, second := OfKind(descriptors, Image(Amd64))[0], OfKind(descriptors, Image(Arm64))[0];
    var third := Referring(archive, request, others, digests, amd64)[0];
    var fourth := Referring(archive, request, others, digests, arm64)[0];
    KindIsKept(descriptors, Image(Amd64), 0);
    KindIsKept(descriptors, Image(Arm64), 0);
    ImagePassesExactly(archive, request, first, Amd64, amd64);
    ImagePassesExactly(archive, request, second, Arm64, arm64);
    ReferenceIsKept(archive, request, descriptors, digests, amd64);
    ReferenceIsKept(archive, request, descriptors, digests, arm64);
    AttestationPassesExactly(archive, request, third, digests, amd64);
    AttestationPassesExactly(archive, request, fourth, digests, arm64);
    ImagesDiffer(archive, request, first, second, amd64, arm64);
    KindsTogether(descriptors);
    ReferencesTogether(archive, request, others, amd64, arm64);
    OnlyOne(OfKind(descriptors, Image(Amd64)));
    OnlyOne(OfKind(descriptors, Image(Arm64)));
    OnlyOne(Referring(archive, request, others, digests, amd64));
    OnlyOne(Referring(archive, request, others, digests, arm64));
    assert multiset(descriptors) == multiset{first, second, third, fourth};
  }

  lemma FourKinds(a: Json, b: Json, c: Json, d: Json, kind: Kind)
    ensures OfKind([a, b, c, d], kind)
         == (if KindOf(a) == kind then [a] else []) + (if KindOf(b) == kind then [b] else [])
            + (if KindOf(c) == kind then [c] else []) + (if KindOf(d) == kind then [d] else [])
  {
    hide KindOf, OfKind;
    OfKindCons([a, b, c, d], kind);
    assert [a, b, c, d][1..] == [b, c, d];
    OfKindCons([b, c, d], kind);
    assert [b, c, d][1..] == [c, d];
    OfKindCons([c, d], kind);
    assert [c, d][1..] == [d];
    OfKindCons([d], kind);
    assert [d][1..] == [];
    NothingOfKind(kind);
  }

  lemma TwoReferences(archive: Archive, request: Request, c: Json, d: Json, digests: set<string>, digest: string)
    ensures Referring(archive, request, [c, d], digests, digest)
         == (if Reference(archive, request, c, digests) == Some(digest) then [c] else [])
            + (if Reference(archive, request, d, digests) == Some(digest) then [d] else [])
    ensures AllRefer(archive, request, [c, d], digests) <==>
            Reference(archive, request, c, digests).Some? && Reference(archive, request, d, digests).Some?
  {
    hide Reference, Referring;
    ReferringCons(archive, request, [c, d], digests, digest);
    assert [c, d][1..] == [d];
    ReferringCons(archive, request, [d], digests, digest);
    assert [d][1..] == [];
    NothingRefers(archive, request, digests, digest);
  }

  lemma FourAreAcceptable(archive: Archive, request: Request, a: Json, b: Json, c: Json, d: Json,
                          amd64: string, arm64: string)
    requires KindOf(a) == Image(Amd64) && Checked(archive, request, a, Amd64) == Some(amd64)
    requires KindOf(b) == Image(Arm64) && Checked(archive, request, b, Arm64) == Some(arm64)
    requires KindOf(c) == Other && Reference(archive, request, c, {amd64, arm64}) == Some(amd64)
    requires KindOf(d) == Other && Reference(archive, request, d, {amd64, arm64}) == Some(arm64)
    requires amd64 != arm64
    ensures Acceptable(archive, request, [a, b, c, d], amd64, arm64)
  {
    hide KindOf, OfKind, Checked, Reference, Referring, AllRefer;
    FourKinds(a, b, c, d, Image(Amd64));
    FourKinds(a, b, c, d, Image(Arm64));
    FourKinds(a, b, c, d, Other);
    assert OfKind([a, b, c, d], Other) == [c, d];
    TwoReferences(archive, request, c, d, {amd64, arm64}, amd64);
    TwoReferences(archive, request, c, d, {amd64, arm64}, arm64);
  }

  lemma AcceptedIsAcceptable(archive: Archive, request: Request, descriptors: seq<Json>, amd64: string, arm64: string)
    requires Accepted(archive, request, descriptors, amd64, arm64)
    ensures Acceptable(archive, request, descriptors, amd64, arm64)
  {
    hide KindOf, Checked, Reference, IsImage, IsAttestation, Acceptable;
    var a, b, c, d :|
      && IsImage(archive, request, a, "amd64", amd64)
      && IsImage(archive, request, b, "arm64", arm64)
      && IsAttestation(archive, request, c, amd64)
      && IsAttestation(archive, request, d, arm64)
      && multiset(descriptors) == multiset{a, b, c, d};
    ImagePassesExactly(archive, request, a, Amd64, amd64);
    ImagePassesExactly(archive, request, b, Arm64, arm64);
    AttestationPassesExactly(archive, request, c, {amd64, arm64}, amd64);
    AttestationPassesExactly(archive, request, d, {amd64, arm64}, arm64);
    ImagesDiffer(archive, request, a, b, amd64, arm64);
    FourAreAcceptable(archive, request, a, b, c, d, amd64, arm64);
    AcceptableInAnyOrder(archive, request, [a, b, c, d], descriptors, amd64, arm64);
  }

  /** The descriptor loops accept exactly the four descriptors of the two images and their
      attestations, in any order. */
  lemma AcceptsExactlyTwoAttestedImages(archive: Archive, request: Request, descriptors: seq<Json>)
    ensures var verified := VerifyDescriptors(archive, request, descriptors);
      && (verified.Ok? ==> verified.value.Keys == {Amd64, Arm64})
      && forall amd64, arm64 :: Accepted(archive, request, descriptors, amd64, arm64) <==>
           verified == Ok(map[Amd64 := amd64, Arm64 := arm64])
  {
    hide VerifyDescriptors, Acceptable, Accepted;
    AcceptsExactlyTheAcceptable(archive, request, descriptors);
    var verified := VerifyDescriptors(archive, request, descriptors);
    forall amd64, arm64 ensures Accepted(archive, request, descriptors, amd64, arm64) <==>
                                verified == Ok(map[Amd64 := amd64, Arm64 := arm64])
    {
      if Accepted(archive, request, descriptors, amd64, arm64) {
        AcceptedIsAcceptable(archive, request, descriptors, amd64, arm64);
      }
      if verified == Ok(map[Amd64 := amd64, Arm64 := arm64]) {
        assert verified.value[Amd64] == amd64 && verified.value[Arm64] == arm64;
        AcceptableIsAccepted(archive, request, descriptors, amd64, arm64);
      }
    }
  }

  /** Every descriptor of an accepted list for another platform is an attestation, bound by its own
      fields and held documents to one of the images and to the commit. */
  lemma AcceptedAttestations(archive: Archive, request: Request, descriptors: seq<Json>, descriptor: Json)
    requires VerifyDescriptors(archive, request, descriptors).Ok?
    requires descriptor in descriptors && IsElsewhere(descriptor)
    ensures var digests := VerifyDescriptors(archive, request, descriptors).value;
      && digests.Keys == {Amd64, Arm64}
      && (IsAttestation(archive, request, descriptor, digests[Amd64])
          || IsAttestation(archive, request, descriptor, digests[Arm64]))
  {
    hide VerifyDescriptors, At, Holds, IsAttestation;
    AcceptsExactlyTwoAttestedImages(archive, request, descriptors);
    var digests := VerifyDescriptors(archive, request, descriptors).value;
    TwoPlatforms(digests);
    assert Accepted(archive, request, descriptors, digests[Amd64], digests[Arm64]);
    assert descriptor in multiset(descriptors);
  }

  // ---------------------------------------------------------------- the whole verifier

  /** The text after its leading digits, if there are any. */
  function AfterDigits(text: string): Option<string> {
    if |text| == 0 || !('0' <= text[0] <= '9') then None
    else
      var rest := AfterDigits(text[1..]);
      if rest.Some? then rest else Some(text[1..])
  }

  predicate IsReleaseCandidate(suffix: string) {
    && StartsWith(suffix, "-rc.") && |suffix| > 4 && '1' <= suffix[4] <= '9'
    && forall i :: 5 <= i < |suffix| ==> '0' <= suffix[i] <= '9'
  }

  /** Three numbers with dots between them, and possibly a release candidate number. */
  predicate IsVersion(text: string) {
    var major := AfterDigits(text);
    && major.Some? && StartsWith(major.value, ".")
    && var minor := AfterDigits(major.value[1..]);
    && minor.Some? && StartsWith(minor.value, ".")
    && var patch := AfterDigits(minor.value[1..]);
    && patch.Some? && (patch.value == "" || IsReleaseCandidate(patch.value))
  }

  predicate ValidRequest(request: Request) {
    && |request.commitSha| == 40 && IsLowerHex(request.commitSha)
    && IsVersion(request.version)
    && (request.imageTitle == "immich-rs" || request.imageTitle == "immich-rs-web")
  }

  datatype ReportedPlatform = ReportedPlatform(os: string, architecture: string, manifestDigest: string)

  function Reported(platforms: map<Platform, string>): seq<ReportedPlatform>
    requires platforms.Keys == {Amd64, Arm64}
  {
    assert Amd64 in platforms.Keys && Arm64 in platforms.Keys;
    [ReportedPlatform("linux", "amd64", platforms[Amd64]), ReportedPlatform("linux", "arm64", platforms[Arm64])]
  }

  ghost predicate IsRunOfDigits(text: string) {
    |text| > 0 && forall i :: 0 <= i < |text| ==> '0' <= text[i] <= '9'
  }

  ghost predicate IsCandidate(suffix: string) {
    exists number :: IsRunOfDigits(number) && number[0] != '0' && suffix == "-rc." + number
  }

  ghost predicate IsNumbered(text: string, major: string, minor: string, patch: string, suffix: string) {
    && text == major + "." + minor + "." + patch + suffix
    && IsRunOfDigits(major) && IsRunOfDigits(minor) && IsRunOfDigits(patch)
    && (suffix == "" || IsCandidate(suffix))
  }

  lemma {:induction false} DigitsEnd(digits: string, rest: string)
    requires IsRunOfDigits(digits)
    requires rest == "" || !('0' <= rest[0] <= '9')
    ensures AfterDigits(digits + rest) == Some(rest)
    decreases |digits|
  {
    var text := digits + rest;
    assert text[0] == digits[0];
    assert text[1..] == digits[1..] + rest;
    if |digits| == 1 {
      assert text[1..] == rest;
    } else {
      DigitsEnd(digits[1..], rest);
    }
  }

  lemma {:induction false} DigitsAreTaken(text: string) returns (digits: string)
    requires AfterDigits(text).Some?
    ensures IsRunOfDigits(digits) && text == digits + AfterDigits(text).value
  {
    var rest := AfterDigits(text[1..]);
    if rest.Some? {
      var more := DigitsAreTaken(text[1..]);
      digits := [text[0]] + more;
    } else {
      digits := [text[0]];
    }
    assert text == [text[0]] + text[1..];
  }

  lemma CandidateExactly(suffix: string)
    ensures IsReleaseCandidate(suffix) <==> IsCandidate(suffix)
  {
    if IsReleaseCandidate(suffix) {
      var number := suffix[4..];
      assert suffix == "-rc." + number;
      assert forall i :: 0 <= i < |number| ==> number[i] == suffix[i + 4];
      assert IsRunOfDigits(number);
    }
    if IsCandidate(suffix) {
      var number :| IsRunOfDigits(number) && number[0] != '0' && suffix == "-rc." + number;
      assert suffix[..4] == "-rc.";
      assert forall i :: 5 <= i < |suffix| ==> suffix[i] == number[i - 4];
    }
  }

  lemma DotAfter(text: string, rest: string)
    requires StartsWith(rest, ".")
    ensures rest == "." + rest[1..]
  {
  }

  /** A version is three numbers between dots, and possibly a release candidate suffix. */
  lemma VersionExactly(text: string)
    ensures IsVersion(text) <==> exists major, minor, patch, suffix :: IsNumbered(text, major, minor, patch, suffix)
  {
    hide AfterDigits, IsRunOfDigits, IsReleaseCandidate, IsCandidate;
    if IsVersion(text) {
      var major := DigitsAreTaken(text);
      var afterMajor := AfterDigits(text).value;
      DotAfter(text, afterMajor);
      var minor := DigitsAreTaken(afterMajor[1..]);
      var afterMinor := AfterDigits(afterMajor[1..]).value;
      DotAfter(text, afterMinor);
      var patch := DigitsAreTaken(afterMinor[1..]);
      var suffix := AfterDigits(afterMinor[1..]).value;
      CandidateExactly(suffix);
      assert text == major + ("." + (minor + ("." + (patch + suffix))));
      assert text == major + "." + minor + "." + patch + suffix;
      assert IsNumbered(text, major, minor, patch, suffix);
    }
    if major, minor, patch, suffix :| IsNumbered(text, major, minor, patch, suffix) {
      CandidateExactly(suffix);
      SuffixStart(suffix);
      assert text == major + ("." + (minor + ("." + (patch + suffix))));
      DigitsEnd(patch, suffix);
      assert ("." + (patch + suffix))[1..] == patch + suffix;
      DigitsEnd(minor, "." + (patch + suffix));
      assert ("." + (minor + ("." + (patch + suffix))))[1..] == minor + ("." + (patch + suffix));
      DigitsEnd(major, "." + (minor + ("." + (patch + suffix))));
    }
  }

  lemma SuffixStart(suffix: string)
    requires suffix == "" || IsCandidate(suffix)
    ensures suffix == "" || !('0' <= suffix[0] <= '9')
  {
  }

  /** A full lower-case commit, a version and one of the two image names. */
  ghost predicate IsRequest(request: Request) {
    && |request.commitSha| == 40
    && (forall i :: 0 <= i < 40 ==> IsHexDigit(request.commitSha[i]))
    && (exists major, minor, patch, suffix :: IsNumbered(request.version, major, minor, patch, suffix))
    && request.imageTitle in {"immich-rs", "immich-rs-web"}
  }

  lemma RequestExactly(request: Request)
    ensures ValidRequest(request) <==> IsRequest(request)
  {
    hide IsVersion, IsNumbered;
    VersionExactly(request.version);
  }

  /** An index in a single descriptor without a platform. */
  predicate IsNested(listed: seq<Json>) {
    && |listed| == 1 && listed[0].Obj? && "platform" !in listed[0].members
    && At(listed[0], ["mediaType"]) == Str("application/vnd.oci.image.index.v1+json")
  }

  /** The descriptors are those of the index document, or of the index it nests. */
  ghost predicate IsListedIn(archive: Archive, index: map<string, Json>, descriptors: seq<Json>) {
    && IsSchemaTwo(index) && At(Obj(index), ["manifests"]).Arr?
    && var listed := At(Obj(index), ["manifests"]).items;
    if IsNested(listed) then
      exists nested :: Holds(archive, listed[0], 1048576, nested) && IsSchemaTwo(nested)
                       && At(Obj(nested), ["manifests"]) == Arr(descriptors)
    else listed == descriptors
  }

  lemma ListedExactly(archive: Archive, index: map<string, Json>, descriptors: seq<Json>)
    ensures ManifestDescriptors(archive, index) == Ok(descriptors) <==> IsListedIn(archive, index, descriptors)
  {
    hide At, DescriptorJson, Holds, IsSchemaTwo;
    SchemaIsTwo(index);
    AtKey(index, "manifests");
    var listed := Get(index, "manifests");
    if listed.Arr? && |listed.items| == 1 && listed.items[0].Obj? {
      var members := listed.items[0].members;
      AtKey(members, "mediaType");
      forall nested ensures DescriptorJson(archive, members, MAX_INDEX_BYTES) == Ok(nested) <==>
                            Holds(archive, listed.items[0], 1048576, nested)
      {
        DescriptorReadsExactly(archive, members, MAX_INDEX_BYTES, nested);
      }
      forall nested ensures IsNumber(Get(nested, "schemaVersion"), 2) <==> IsSchemaTwo(nested) {
        SchemaIsTwo(nested);
      }
      forall nested ensures At(Obj(nested), ["manifests"]) == Get(nested, "manifests") {
        AtKey(nested, "manifests");
      }
    }
  }

  /** The archive lists, in its index, two attested images for the request. */
  ghost predicate IsRelease(archive: Archive, request: Request, amd64: string, arm64: string) {
    && IsRequest(request)
    && exists index, descriptors ::
         HoldsIndex(archive, index) && IsListedIn(archive, index, descriptors)
         && Accepted(archive, request, descriptors, amd64, arm64)
  }

  /** The archive's list of descriptors, read in full. */
  function Listed(archive: Archive): Result<seq<Json>, Failure> {
    match BoundedJson(archive, "index.json", None, MAX_INDEX_BYTES)
    case Err(failure) => Err(failure)
    case Ok(index) => ManifestDescriptors(archive, index)
  }

  lemma ListedMeans(archive: Archive, descriptors: seq<Json>)
    ensures Listed(archive) == Ok(descriptors) <==>
            exists index :: HoldsIndex(archive, index) && IsListedIn(archive, index, descriptors)
  {
    hide BoundedJson, HoldsIndex, ManifestDescriptors, IsListedIn;
    forall index ensures BoundedJson(archive, "index.json", None, MAX_INDEX_BYTES) == Ok(index) <==>
                         HoldsIndex(archive, index)
    {
      IndexReadsExactly(archive, index);
    }
    forall index ensures ManifestDescriptors(archive, index) == Ok(descriptors) <==>
                         IsListedIn(archive, index, descriptors)
    {
      ListedExactly(archive, index, descriptors);
    }
  }

  lemma ReleaseExactly(archive: Archive, request: Request, amd64: string, arm64: string)
    ensures IsRelease(archive, request, amd64, arm64) <==>
            && ValidRequest(request) && Listed(archive).Ok?
            && VerifyDescriptors(archive, request, Listed(archive).value) == Ok(map[Amd64 := amd64, Arm64 := arm64])
  {
    hide IsRequest, ValidRequest, Listed, VerifyDescriptors, Accepted, HoldsIndex, IsListedIn;
    RequestExactly(request);
    if Listed(archive).Ok? {
      var descriptors := Listed(archive).value;
      ListedMeans(archive, descriptors);
      AcceptsExactlyTwoAttestedImages(archive, request, descriptors);
      var index :| HoldsIndex(archive, index) && IsListedIn(archive, index, descriptors);
    }
    if IsRelease(archive, request, amd64, arm64) {
      var index, descriptors :|
        HoldsIndex(archive, index) && IsListedIn(archive, index, descriptors)
        && Accepted(archive, request, descriptors, amd64, arm64);
      ListedMeans(archive, descriptors);
    }
  }

  /** `verify`: the two digests, amd64 first, exactly when the archive is a release for the request. */
  method Verify(archive: Archive, request: Request) returns (r: Result<seq<ReportedPlatform>, Failure>)
    ensures forall amd64, arm64 :: IsRelease(archive, request, amd64, arm64) <==>
              r == Ok([ReportedPlatform("linux", "amd64", amd64), ReportedPlatform("linux", "arm64", arm64)])
    ensures r.Ok? ==> |r.value| == 2 && IsRelease(archive, request, r.value[0].manifestDigest, r.value[1].manifestDigest)
  {
    hide BoundedJson, ManifestDescriptors, Classify, Attest, IsRelease, ValidRequest;
    forall amd64, arm64 ensures IsRelease(archive, request, amd64, arm64) <==>
        && ValidRequest(request) && Listed(archive).Ok?
        && VerifyDescriptors(archive, request, Listed(archive).value) == Ok(map[Amd64 := amd64, Arm64 := arm64])
    {
      ReleaseExactly(archive, request, amd64, arm64);
    }
    if !ValidRequest(request) {
      return Err(Rejected);
    }
    var index := BoundedJson(archive, "index.json", None, MAX_INDEX_BYTES);
    if index.Err? {
      return Err(index.error);
    }
    var listed := ManifestDescriptors(archive, index.value);
    if listed.Err? {
      return Err(listed.error);
    }
    ClassifiedAreObjects(archive, request, listed.value, Found(map[], []));
    var found := ClassifyAll(archive, request, listed.value);
    if found.Err? {
      return Err(found.error);
    }
    if found.value.platforms.Keys != {Amd64, Arm64} {
      return Err(Rejected);
    }
    var attested := AttestAll(archive, request, found.value.attestations, found.value.platforms.Values);
    if attested.Err? {
      return Err(attested.error);
    }
    if attested.value != found.value.platforms.Values {
      return Err(Rejected);
    }
    TwoPlatforms(found.value.platforms);
    assert VerifyDescriptors(archive, request, listed.value) == Ok(found.value.platforms);
    return Ok(Reported(found.value.platforms));
  }
}

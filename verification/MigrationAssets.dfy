/** `migration_asset` and the helpers below it in crates/immich-client/src/migration.rs. */
module MigrationAssets {
  import opened ArchiveListing
  import opened Remote
  import opened Wrappers
  import Hex

  const I64_MIN := -0x8000_0000_0000_0000
  const I64_MAX := 0x7FFF_FFFF_FFFF_FFFF
  const NANOS_PER_MILLI := 1_000_000
  const NANOS_PER_SECOND := 1_000_000_000

  datatype Coordinates = Coordinates(latitude: string, longitude: string)

  datatype Metadata = Metadata(
    description: Option<string>,
    takenAtUtc: Option<string>,
    location: Option<Coordinates>,
    albums: seq<string>)

  const DEFAULT_METADATA := Metadata(None, None, None, [])

  datatype MigrationAsset = MigrationAsset(
    assetId: string,
    originalFileName: string,
    mediaKind: MediaKind,
    byteLen: nat,
    checksumSha1: string,
    createdAtUnixMs: int,
    modifiedAtUnixMs: int,
    normalizedMetadata: Option<Metadata>,
    livePhotoVideoId: Option<string>)

  /** Rust's `/` on integers drops the fraction towards zero. */
  function TruncatedQuotient(n: int, d: int): int
    requires d > 0
  {
    if n >= 0 then n / d else -((-n) / d)
  }

  function TimestampMillis(libraries: Libraries, text: string): Option<int> {
    var instant := libraries.instant(text);
    if instant.None? then None
    else
      var millis := TruncatedQuotient(instant.value, NANOS_PER_MILLI);
      if I64_MIN <= millis <= I64_MAX then Some(millis) else None
  }

  /** The instant with its fraction of a second dropped, which rounds down. */
  function CanonicalTimestamp(libraries: Libraries, text: string): Option<string> {
    var instant := libraries.instant(text);
    if instant.None? then None
    else libraries.formatInstant(instant.value / NANOS_PER_SECOND * NANOS_PER_SECOND)
  }

  /** Both zeros print the same way. */
  function CanonicalDecimal(libraries: Libraries, value: real): string {
    if value == 0.0 then "0" else libraries.decimal(value)
  }

  function NormalizeMetadata(libraries: Libraries, description: Option<string>, takenAt: Option<string>,
                             latitude: Option<Float>, longitude: Option<Float>)
    : Result<Option<Metadata>, ErrorClass>
  {
    var kept := if description.Some? && |description.value| > 0 then description else None;
    var takenAtUtc := if takenAt.Some? then CanonicalTimestamp(libraries, takenAt.value) else None;
    if takenAt.Some? && takenAtUtc.None? then Err(Protocol)
    else if latitude.None? && longitude.None? then
      Ok(Present(Metadata(kept, takenAtUtc, None, [])))
    else if latitude.Some? && longitude.Some? && latitude.value.Finite? && longitude.value.Finite? then
      Ok(Present(Metadata(kept, takenAtUtc,
                          Some(Coordinates(CanonicalDecimal(libraries, latitude.value.value),
                                           CanonicalDecimal(libraries, longitude.value.value))), [])))
    else Err(Protocol)
  }

  function Present(metadata: Metadata): Option<Metadata> {
    if metadata != DEFAULT_METADATA then Some(metadata) else None
  }

  function ToMigrationAsset(libraries: Libraries, item: AssetResponse): Result<MigrationAsset, ErrorClass> {
    if item.kind.Audio? || item.kind.Other? then Err(Protocol)
    else
      var checksum := libraries.base64(item.checksum);
      if checksum.None? || |checksum.value| != 20 then Err(Protocol)
      else if item.exif.None? then Err(Protocol)
      else
        var exif := item.exif.value;
        if exif.fileSize.None? || exif.fileSize.value == 0 then Err(Protocol)
        else if item.fileCreatedAt.None? || item.fileModifiedAt.None? then Err(Protocol)
        else
          var created := TimestampMillis(libraries, item.fileCreatedAt.value);
          var modified := TimestampMillis(libraries, item.fileModifiedAt.value);
          if created.None? || modified.None? then Err(Protocol)
          else
            var takenAt := if exif.dateTimeOriginal.Some? then exif.dateTimeOriginal else item.fileCreatedAt;
            match NormalizeMetadata(libraries, exif.description, takenAt, exif.latitude, exif.longitude)
            case Err(error) => Err(error)
            case Ok(metadata) =>
              Ok(MigrationAsset(item.id, item.originalFileName, if item.kind.Image? then ImageKind else VideoKind,
                                exif.fileSize.value, Hex.Encode(checksum.value), created.value, modified.value,
                                metadata, item.livePhotoVideoId))
  }

  /** The comparison of a detail response with what the listing said. */
  predicate Reverifies(asset: MigrationAsset, expected: RemoteAsset) {
    && asset.assetId == expected.assetId
    && asset.originalFileName == expected.originalFileName
    && asset.mediaKind == expected.mediaKind
    && asset.byteLen == expected.byteLen
    && asset.checksumSha1 == expected.checksumSha1
  }

  lemma ReverifiesExactly(asset: MigrationAsset, expected: RemoteAsset)
    ensures Reverifies(asset, expected) <==>
            expected == RemoteAsset(asset.assetId, asset.originalFileName, asset.mediaKind, asset.byteLen,
                                    asset.checksumSha1)
  {
  }

  /** A response fit for migration is fit for listing, and the two readings agree. */
  lemma MigrationRefinesListing(libraries: Libraries, item: AssetResponse)
    requires ToMigrationAsset(libraries, item).Ok?
    ensures ConvertAsset(libraries, item).Ok?
    ensures Reverifies(ToMigrationAsset(libraries, item).value, ConvertAsset(libraries, item).value.asset)
    ensures ToMigrationAsset(libraries, item).value.byteLen > 0
    ensures ToMigrationAsset(libraries, item).value.normalizedMetadata != Some(DEFAULT_METADATA)
  {
  }

  /** A listed asset re-verified against another response has that response's checksum bytes. */
  lemma ReverifiedChecksum(libraries: Libraries, listed: AssetResponse, detail: AssetResponse)
    requires ConvertAsset(libraries, listed).Ok? && ToMigrationAsset(libraries, detail).Ok?
    requires Reverifies(ToMigrationAsset(libraries, detail).value, ConvertAsset(libraries, listed).value.asset)
    ensures listed.id == detail.id
    ensures libraries.base64(listed.checksum) == libraries.base64(detail.checksum)
  {
    Hex.EncodeIsInjective(libraries.base64(listed.checksum).value, libraries.base64(detail.checksum).value);
  }

  // ---------------------------------------------------------------- field by field

  /** The milliseconds of a text's instant, with the fraction dropped towards zero, within 64 bits. */
  ghost predicate IsMillisOf(libraries: Libraries, text: string, millis: int) {
    && libraries.instant(text).Some?
    && var nanos := libraries.instant(text).value;
    && (if nanos >= 0 then millis * 1_000_000 <= nanos < (millis + 1) * 1_000_000
        else (millis - 1) * 1_000_000 < nanos <= millis * 1_000_000)
    && -0x8000_0000_0000_0000 <= millis < 0x8000_0000_0000_0000
  }

  /** The text's instant, formatted after going back to the start of its second. */
  ghost predicate IsWholeSecondOf(libraries: Libraries, text: string, formatted: string) {
    && libraries.instant(text).Some?
    && exists second: int ::
         && libraries.formatInstant(second) == Some(formatted)
         && second % 1_000_000_000 == 0
         && second <= libraries.instant(text).value < second + 1_000_000_000
  }

  predicate IsDegrees(libraries: Libraries, value: Option<Float>, text: string) {
    && value.Some? && value.value.Finite?
    && text == if value.value.value == 0.0 then "0" else libraries.decimal(value.value.value)
  }

  predicate IsLocation(libraries: Libraries, latitude: Option<Float>, longitude: Option<Float>,
                       location: Option<Coordinates>)
  {
    if location.None? then latitude.None? && longitude.None?
    else IsDegrees(libraries, latitude, location.value.latitude) && IsDegrees(libraries, longitude, location.value.longitude)
  }

  /** The description unless it is empty, the time it was taken or else created, and the location. */
  ghost predicate IsMetadata(libraries: Libraries, exif: Exif, created: string, metadata: Metadata) {
    && metadata.description == (if exif.description == Some("") then None else exif.description)
    && metadata.takenAtUtc.Some?
    && IsWholeSecondOf(libraries, if exif.dateTimeOriginal.Some? then exif.dateTimeOriginal.value else created,
                       metadata.takenAtUtc.value)
    && IsLocation(libraries, exif.latitude, exif.longitude, metadata.location)
    && metadata.albums == []
  }

  /** The asset carries the facts the listing compares, the response's own two times, its metadata and
      its motion video. */
  ghost predicate IsMigrated(libraries: Libraries, item: AssetResponse, asset: MigrationAsset) {
    && ReadsAs(libraries, item, RemoteAsset(asset.assetId, asset.originalFileName, asset.mediaKind, asset.byteLen,
                                            asset.checksumSha1))
    && asset.byteLen > 0
    && item.fileCreatedAt.Some? && IsMillisOf(libraries, item.fileCreatedAt.value, asset.createdAtUnixMs)
    && item.fileModifiedAt.Some? && IsMillisOf(libraries, item.fileModifiedAt.value, asset.modifiedAtUnixMs)
    && asset.normalizedMetadata.Some?
    && IsMetadata(libraries, item.exif.value, item.fileCreatedAt.value, asset.normalizedMetadata.value)
    && asset.livePhotoVideoId == item.livePhotoVideoId
  }

  lemma TruncatesTowardsZero(n: int, q: int)
    ensures TruncatedQuotient(n, 1_000_000) == q <==>
            if n >= 0 then q * 1_000_000 <= n < (q + 1) * 1_000_000
            else (q - 1) * 1_000_000 < n <= q * 1_000_000
  {
  }

  lemma MillisExactly(libraries: Libraries, text: string, millis: int)
    ensures TimestampMillis(libraries, text) == Some(millis) <==> IsMillisOf(libraries, text, millis)
  {
    if libraries.instant(text).Some? {
      TruncatesTowardsZero(libraries.instant(text).value, millis);
    }
  }

  lemma WholeSecondExactly(libraries: Libraries, text: string, formatted: string)
    ensures CanonicalTimestamp(libraries, text) == Some(formatted) <==> IsWholeSecondOf(libraries, text, formatted)
  {
    if libraries.instant(text).Some? {
      var nanos := libraries.instant(text).value;
      forall second: int ensures second % 1_000_000_000 == 0 && second <= nanos < second + 1_000_000_000 <==>
                                 second == nanos / 1_000_000_000 * 1_000_000_000
      {
      }
    }
  }

  lemma MetadataExactly(libraries: Libraries, exif: Exif, created: string, metadata: Metadata)
    ensures var takenAt := if exif.dateTimeOriginal.Some? then exif.dateTimeOriginal else Some(created);
      NormalizeMetadata(libraries, exif.description, takenAt, exif.latitude, exif.longitude) == Ok(Some(metadata)) <==>
      IsMetadata(libraries, exif, created, metadata)
  {
    hide CanonicalTimestamp, IsWholeSecondOf;
    var taken := if exif.dateTimeOriginal.Some? then exif.dateTimeOriginal.value else created;
    forall formatted ensures CanonicalTimestamp(libraries, taken) == Some(formatted) <==>
                             IsWholeSecondOf(libraries, taken, formatted)
    {
      WholeSecondExactly(libraries, taken, formatted);
    }
  }

  lemma MetadataIsPresent(libraries: Libraries, exif: Exif, created: string)
    ensures var takenAt := if exif.dateTimeOriginal.Some? then exif.dateTimeOriginal else Some(created);
      var normalized := NormalizeMetadata(libraries, exif.description, takenAt, exif.latitude, exif.longitude);
      normalized.Ok? ==> normalized.value.Some?
  {
    hide CanonicalTimestamp;
  }

  /** A response is accepted for migration exactly as the asset that carries its facts, each in its own
      place. */
  lemma MigratesExactly(libraries: Libraries, item: AssetResponse, asset: MigrationAsset)
    ensures ToMigrationAsset(libraries, item) == Ok(asset) <==> IsMigrated(libraries, item, asset)
  {
    hide NormalizeMetadata, IsMetadata, TimestampMillis, IsMillisOf;
    if item.exif.Some? && item.fileCreatedAt.Some? && item.fileModifiedAt.Some? {
      MillisExactly(libraries, item.fileCreatedAt.value, asset.createdAtUnixMs);
      MillisExactly(libraries, item.fileModifiedAt.value, asset.modifiedAtUnixMs);
      MetadataIsPresent(libraries, item.exif.value, item.fileCreatedAt.value);
      if asset.normalizedMetadata.Some? {
        MetadataExactly(libraries, item.exif.value, item.fileCreatedAt.value, asset.normalizedMetadata.value);
      }
    }
  }

  ghost predicate Migratable(libraries: Libraries, item: AssetResponse) {
    exists asset :: IsMigrated(libraries, item, asset)
  }

  lemma MigratableExactly(libraries: Libraries, item: AssetResponse)
    ensures ToMigrationAsset(libraries, item).Ok? <==> Migratable(libraries, item)
  {
    hide ToMigrationAsset, IsMigrated;
    if ToMigrationAsset(libraries, item).Ok? {
      MigratesExactly(libraries, item, ToMigrationAsset(libraries, item).value);
    }
    if asset :| IsMigrated(libraries, item, asset) {
      MigratesExactly(libraries, item, asset);
    }
  }
}

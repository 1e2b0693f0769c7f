/** Album effects of an import: identifiers, bulk membership results and album lookup in
    crates/immich-client/src/import.rs. */
module AlbumMembership {
  import opened Ordering
  import opened Sequences
  import opened Text
  import opened Wrappers
  import AlbumProjection

  const MAX_ALBUM_ASSETS := 100_000
  const MAX_REMOTE_ID_BYTES := 36

  datatype Failure = Protocol | Cancelled | Transport

  datatype BulkIdError = Duplicate | NoPermission | NotFound | Unknown | Validation

  datatype BulkIdResponse = BulkIdResponse(id: string, success: bool, error: Option<BulkIdError>)

  datatype Album = Album(id: string, name: string)

  // ---------------------------------------------------------------- identifiers

  predicate IsHexDigit(c: char) {
    '0' <= c <= '9' || 'a' <= c <= 'f' || 'A' <= c <= 'F'
  }

  /** Every byte is checked to be ASCII, so the bytes are the characters. */
  predicate ValidRemoteId(value: string) {
    && |value| == MAX_REMOTE_ID_BYTES
    && value[8] == '-' && value[13] == '-' && value[14] == '4' && value[18] == '-' && value[23] == '-'
    && value[19] in {'8', '9', 'a', 'b', 'A', 'B'}
    && forall i :: 0 <= i < |value| ==> i in {8, 13, 18, 23} || IsHexDigit(value[i])
  }

  const MAX_ALBUM_NAME_BYTES := 4_096

  /** `validate_album_name`. */
  predicate ValidAlbumName(name: string) {
    && 0 < |name|
    && Utf8Length(name) <= MAX_ALBUM_NAME_BYTES
    && '/' !in name && '\\' !in name
    && forall i :: 0 <= i < |name| ==> !IsControl(name[i])
  }

  /** An album name an inventory accepts can be imported exactly when it has no slash. */
  lemma InventoryNamesImportExactlyWithoutSlash(name: string)
    ensures ValidAlbumName(name) <==> AlbumProjection.ValidAlbumName(name) && '/' !in name
    ensures AlbumProjection.ValidAlbumName("a/b") && !ValidAlbumName("a/b")
  {
    hide IsControl;
    var text := "a/b";
    assert text[1] == '/';
    SlashIsListed();
  }

  lemma SlashIsListed()
    ensures AlbumProjection.ValidAlbumName("a/b")
  {
    assert "a/b"[1..] == "/b" && "/b"[1..] == "b" && "b"[1..] == "";
  }

  /** The ids an inventory accepts are the lower-case ones among the ids an import accepts. */
  lemma InventoryIdsAreLowerCaseImportIds(value: string)
    ensures AlbumProjection.UuidV4(value) <==>
      ValidRemoteId(value) && forall i :: 0 <= i < |value| ==> !('A' <= value[i] <= 'F')
  {
    if AlbumProjection.UuidV4(value) {
      forall i | 0 <= i < |value| ensures !('A' <= value[i] <= 'F') {
        assert i in {8, 13, 18, 23} || AlbumProjection.IsLowerHexDigit(value[i]);
      }
    }
  }

  function AsciiLower(value: string): (r: string)
    ensures |r| == |value|
  {
    seq(|value|, i requires 0 <= i < |value| => if 'A' <= value[i] <= 'Z' then (value[i] as int + 32) as char else value[i])
  }

  /** An import accepts exactly the ids whose lower-case form an inventory accepts. */
  lemma ImportIdsIgnoreCase(value: string)
    ensures ValidRemoteId(value) <==> AlbumProjection.UuidV4(AsciiLower(value))
  {
    var lower := AsciiLower(value);
    if AlbumProjection.UuidV4(lower) {
      forall i | 0 <= i < |value| ensures i in {8, 13, 18, 23} || IsHexDigit(value[i]) {
        assert i in {8, 13, 18, 23} || AlbumProjection.IsLowerHexDigit(lower[i]);
      }
    }
    if ValidRemoteId(value) {
      forall i | 0 <= i < |value| ensures i in {8, 13, 18, 23} || AlbumProjection.IsLowerHexDigit(lower[i]) {
        assert i in {8, 13, 18, 23} || IsHexDigit(value[i]);
      }
    }
  }

  /** Each id is below the next one, as the sliding window of two checks it. */
  predicate NeighboursAscend(ids: seq<string>) {
    forall i :: 0 <= i < |ids| - 1 ==> Less(ids[i], ids[i + 1])
  }

  predicate ValidIds(albumId: string, assetIds: seq<string>) {
    && ValidRemoteId(albumId)
    && 0 < |assetIds| <= MAX_ALBUM_ASSETS
    && (forall i :: 0 <= i < |assetIds| ==> ValidRemoteId(assetIds[i]))
    && NeighboursAscend(assetIds)
  }

  lemma {:induction false} NeighboursReach(ids: seq<string>, i: nat, j: nat)
    requires NeighboursAscend(ids) && i < j < |ids|
    ensures Less(ids[i], ids[j])
    decreases j
  {
    if i < j - 1 {
      NeighboursReach(ids, i, j - 1);
      LessIsTransitive(ids[i], ids[j - 1], ids[j]);
    } else {
      assert ids[j] == ids[i + 1];
    }
  }

  /** Comparing neighbours is enough: no id occurs twice anywhere. */
  lemma NeighboursAreDistinct(ids: seq<string>)
    ensures NeighboursAscend(ids) <==> Ascending(ids)
    ensures NeighboursAscend(ids) ==> Distinct(ids)
  {
    if NeighboursAscend(ids) {
      forall i, j | 0 <= i < j < |ids| ensures Less(ids[i], ids[j]) && ids[i] != ids[j] {
        NeighboursReach(ids, i, j);
        LessIsTotal(ids[i], ids[j]);
      }
    }
  }

  /** Between 1 and 100 000 distinct ids, ascending, all of them well formed. */
  ghost predicate Requestable(albumId: string, assetIds: seq<string>) {
    && ValidRemoteId(albumId)
    && 0 < |assetIds| <= 100_000
    && (forall id :: id in assetIds ==> ValidRemoteId(id))
    && Ascending(assetIds)
  }

  lemma RequestableExactly(albumId: string, assetIds: seq<string>)
    ensures ValidIds(albumId, assetIds) <==> Requestable(albumId, assetIds)
  {
    hide ValidRemoteId;
    NeighboursAreDistinct(assetIds);
    if Requestable(albumId, assetIds) {
      assert forall i :: 0 <= i < |assetIds| ==> assetIds[i] in assetIds;
    }
  }

  // ---------------------------------------------------------------- membership results

  predicate Converged(result: BulkIdResponse) {
    result.success || result.error == Some(Duplicate)
  }

  /** The map collected from the results: a later result replaces an earlier one with the same id. */
  function Collected(results: seq<BulkIdResponse>): map<string, bool> {
    if |results| == 0 then map[]
    else
      var last := results[|results| - 1];
      Collected(results[..|results| - 1])[last.id := Converged(last)]
  }

  predicate ValidMembership(expected: seq<string>, results: seq<BulkIdResponse>) {
    var actual := Collected(results);
    |actual| == |expected| && forall i :: 0 <= i < |expected| ==> expected[i] in actual && actual[expected[i]]
  }

  function IdsOf(results: seq<BulkIdResponse>): set<string> {
    set i | 0 <= i < |results| :: results[i].id
  }

  /** There is a result for the id, and no later result for it failed. */
  ghost predicate LastConverged(results: seq<BulkIdResponse>, id: string) {
    exists i :: 0 <= i < |results| && results[i].id == id
      && (results[i].success || results[i].error == Some(Duplicate))
      && forall j :: i < j < |results| ==> results[j].id != id
  }

  lemma LastOf(results: seq<BulkIdResponse>, id: string)
    requires |results| > 0 && results[|results| - 1].id == id
    ensures LastConverged(results, id) <==> Converged(results[|results| - 1])
  {
    var last := |results| - 1;
    if LastConverged(results, id) {
      var i :| 0 <= i < |results| && results[i].id == id && (results[i].success || results[i].error == Some(Duplicate))
        && forall j :: i < j < |results| ==> results[j].id != id;
      assert i == last;
    }
  }

  lemma {:induction false} CollectedMeans(results: seq<BulkIdResponse>, id: string)
    ensures id in Collected(results) <==> id in IdsOf(results)
    ensures id in Collected(results) && Collected(results)[id] <==> LastConverged(results, id)
    decreases |results|
  {
    hide Converged, LastConverged;
    if |results| > 0 {
      var count := |results| - 1;
      var front, last := results[..count], results[count];
      CollectedMeans(front, id);
      IdsOfLast(results);
      if last.id == id {
        LastOf(results, id);
      } else {
        SameLast(results, id);
      }
    } else {
      NothingConverged(id);
    }
  }

  lemma NothingConverged(id: string)
    ensures !LastConverged([], id)
  {
  }

  lemma IdsOfLast(results: seq<BulkIdResponse>)
    requires |results| > 0
    ensures IdsOf(results) == IdsOf(results[..|results| - 1]) + {results[|results| - 1].id}
  {
    var front := results[..|results| - 1];
    forall id | id in IdsOf(results) ensures id in IdsOf(front) + {results[|results| - 1].id} {
      var i :| 0 <= i < |results| && results[i].id == id;
      if i < |front| {
        assert front[i].id == id;
      }
    }
    forall id | id in IdsOf(front) ensures id in IdsOf(results) {
      var i :| 0 <= i < |front| && front[i].id == id;
      assert results[i].id == id;
    }
  }

  lemma SameLast(results: seq<BulkIdResponse>, id: string)
    requires |results| > 0 && results[|results| - 1].id != id
    ensures LastConverged(results, id) <==> LastConverged(results[..|results| - 1], id)
  {
    var front := results[..|results| - 1];
    if LastConverged(front, id) {
      var i :| 0 <= i < |front| && front[i].id == id && (front[i].success || front[i].error == Some(Duplicate))
        && forall j :: i < j < |front| ==> front[j].id != id;
      assert results[i] == front[i];
      assert forall j :: i < j < |results| ==> results[j].id != id;
    }
    if LastConverged(results, id) {
      var i :| 0 <= i < |results| && results[i].id == id && (results[i].success || results[i].error == Some(Duplicate))
        && forall j :: i < j < |results| ==> results[j].id != id;
      assert front[i] == results[i];
      assert forall j :: i < j < |front| ==> front[j] == results[j];
    }
  }

  lemma SubsetOfSameSize<T>(a: set<T>, b: set<T>)
    requires a <= b && |a| == |b|
    ensures a == b
  {
    assert |b - a| == |b| - |a|;
    assert b == a + (b - a);
  }

  /** After the id checks, a response is accepted exactly when it names the requested ids and no
      others, and the last result for each of them is a success or a duplicate. */
  lemma MembershipExactlyWhenConverged(albumId: string, expected: seq<string>, results: seq<BulkIdResponse>)
    requires ValidIds(albumId, expected)
    ensures ValidMembership(expected, results) <==>
      IdsOf(results) == Elements(expected) && forall id :: id in expected ==> LastConverged(results, id)
  {
    hide ValidRemoteId, Converged, LastConverged, IdsOf, Collected, NeighboursAscend;
    var actual, requested := Collected(results), Elements(expected);
    NeighboursAreDistinct(expected);
    DistinctSize(expected);
    forall id ensures (id in actual <==> id in IdsOf(results)) && (id in actual && actual[id] <==> LastConverged(results, id)) {
      CollectedMeans(results, id);
    }
    assert actual.Keys == IdsOf(results);
    assert |actual| == |actual.Keys|;
    if ValidMembership(expected, results) {
      forall id | id in requested ensures id in actual && actual[id] {
        var i :| 0 <= i < |expected| && expected[i] == id;
      }
      SubsetOfSameSize(requested, actual.Keys);
    }
  }

  /** With one result for each id, the order of the results does not matter. */
  lemma DistinctResultsDoNotDependOnOrder(albumId: string, expected: seq<string>,
                                          results: seq<BulkIdResponse>, results': seq<BulkIdResponse>)
    requires ValidIds(albumId, expected) && multiset(results) == multiset(results')
    requires Distinct(Map(results, (result: BulkIdResponse) => result.id))
    ensures ValidMembership(expected, results) <==> ValidMembership(expected, results')
  {
    hide ValidIds, ValidMembership, Converged, LastConverged, IdsOf;
    var idOf := (result: BulkIdResponse) => result.id;
    MembershipExactlyWhenConverged(albumId, expected, results);
    MembershipExactlyWhenConverged(albumId, expected, results');
    MapPermutes(results, results', idOf);
    DistinctPermutes(Map(results, idOf), Map(results', idOf));
    SameElements(results, results');
    SameIds(results, results');
    forall id ensures LastConverged(results, id) <==> LastConverged(results', id) {
      OnlyResult(results, id);
      OnlyResult(results', id);
    }
  }

  lemma SameIds(results: seq<BulkIdResponse>, results': seq<BulkIdResponse>)
    requires forall result :: result in results <==> result in results'
    ensures IdsOf(results) == IdsOf(results')
  {
    forall id ensures id in IdsOf(results) <==> id in IdsOf(results') {
      InIds(results, id);
      InIds(results', id);
    }
  }

  lemma InIds(results: seq<BulkIdResponse>, id: string)
    ensures id in IdsOf(results) <==> exists result :: result in results && result.id == id
  {
    if id in IdsOf(results) {
      var i :| 0 <= i < |results| && results[i].id == id;
      assert results[i] in results;
    }
  }

  lemma OnlyResult(results: seq<BulkIdResponse>, id: string)
    requires Distinct(Map(results, (result: BulkIdResponse) => result.id))
    ensures LastConverged(results, id) <==> exists result :: result in results && result.id == id && Converged(result)
  {
    var ids := Map(results, (result: BulkIdResponse) => result.id);
    if exists result :: result in results && result.id == id && Converged(result) {
      var result :| result in results && result.id == id && Converged(result);
      var i :| 0 <= i < |results| && results[i] == result;
      forall j | i < j < |results| ensures results[j].id != id {
        assert ids[i] != ids[j];
      }
    }
  }

  lemma CollectedAppend(results: seq<BulkIdResponse>, last: BulkIdResponse)
    ensures Collected(results + [last]) == Collected(results)[last.id := Converged(last)]
  {
    assert (results + [last])[..|results|] == results;
  }

  /** With two results for an id the order does matter: the last one counts. */
  lemma RepeatedResultsDependOnOrder(id: string)
    ensures var failed, added := BulkIdResponse(id, false, Some(NotFound)), BulkIdResponse(id, true, None);
      ValidMembership([id], [failed, added]) && !ValidMembership([id], [added, failed])
  {
    var failed, added := BulkIdResponse(id, false, Some(NotFound)), BulkIdResponse(id, true, None);
    CollectedAppend([], failed);
    CollectedAppend([failed], added);
    CollectedAppend([], added);
    CollectedAppend([added], failed);
    assert Collected([]) == map[];
    hide Collected;
    assert [] + [failed] == [failed] && [] + [added] == [added];
    assert [failed] + [added] == [failed, added] && [added] + [failed] == [added, failed];
    assert map[id := false][id := true] == map[id := true];
    var expected := [id];
    assert expected[0] == id && |map[id := true]| == 1;
    assert !Collected([added, failed])[expected[0]];
  }

  /** `validate_membership_results`: collecting the results, then comparing. */
  method ValidateMembershipResults(expected: seq<string>, results: seq<BulkIdResponse>)
    returns (r: Result<(), Failure>)
    ensures r == if ValidMembership(expected, results) then Ok(()) else Err(Protocol)
  {
    var actual: map<string, bool> := map[];
    for i := 0 to |results|
      invariant actual == Collected(results[..i])
    {
      assert results[..i + 1][..i] == results[..i];
      actual := actual[results[i].id := Converged(results[i])];
    }
    assert results[..|results|] == results;
    if |actual| != |expected| {
      return Err(Protocol);
    }
    for i := 0 to |expected|
      invariant forall j :: 0 <= j < i ==> expected[j] in actual && actual[expected[j]]
    {
      if expected[i] !in actual || !actual[expected[i]] {
        return Err(Protocol);
      }
    }
    return Ok(());
  }

  /** `add_album_assets`, given what the server would answer to the request. A request is made only
      for valid ids, and the effect is confirmed only when every requested asset has converged. */
  method AddAlbumAssets(albumId: string, assetIds: seq<string>, cancelled: bool,
                        answer: Result<seq<BulkIdResponse>, Failure>)
    returns (r: Result<(), Failure>, requested: Option<seq<string>>)
    ensures requested == if !cancelled && Requestable(albumId, assetIds) then Some(assetIds) else None
    ensures r.Ok? <==>
      && !cancelled && Requestable(albumId, assetIds) && answer.Ok?
      && IdsOf(answer.value) == Elements(assetIds)
      && forall id :: id in assetIds ==> LastConverged(answer.value, id)
    ensures r.Err? ==>
      r.error == if cancelled then Cancelled
                 else if Requestable(albumId, assetIds) && answer.Err? then answer.error else Protocol
  {
    RequestableExactly(albumId, assetIds);
    hide ValidIds, Requestable, ValidMembership, LastConverged, IdsOf;
    if cancelled {
      return Err(Cancelled), None;
    }
    if !ValidIds(albumId, assetIds) {
      return Err(Protocol), None;
    }
    requested := Some(assetIds);
    match answer {
      case Err(failure) => r := Err(failure);
      case Ok(results) =>
        MembershipExactlyWhenConverged(albumId, assetIds, results);
        r := ValidateMembershipResults(assetIds, results);
    }
  }

  // ---------------------------------------------------------------- album lookup

  function ById(): (Album, Album) -> bool {
    (a: Album, b: Album) => AtMost(a.id, b.id)
  }

  predicate Matches(name: string, album: Album) {
    album.name == name && ValidRemoteId(album.id)
  }

  lemma ByIdIsOrdered()
    ensures TotalPreorder(ById())
  {
    StringsAreOrdered();
    hide AtMost;
  }

  /** `find_owned_albums`, given what the server would answer: the name is checked before anything is
      asked for, and the albums are all or nothing, in the order of the ids. */
  method FindOwnedAlbums(name: string, cancelled: bool, answer: Result<seq<Album>, Failure>)
    returns (r: Result<seq<Album>, Failure>, requested: Option<string>)
    ensures requested == if !cancelled && ValidAlbumName(name) then Some(name) else None
    ensures r.Ok? <==>
      && !cancelled && ValidAlbumName(name) && answer.Ok?
      && forall album :: album in answer.value ==> album.name == name && ValidRemoteId(album.id)
    ensures r.Ok? ==>
      && (forall i, j :: 0 <= i < j < |r.value| ==> !Less(r.value[j].id, r.value[i].id))
      && multiset(r.value) == multiset(answer.value)
    ensures cancelled ==> r == Err(Cancelled)
    ensures !cancelled && !ValidAlbumName(name) ==> r == Err(Protocol)
    ensures !cancelled && ValidAlbumName(name) && answer.Err? ==> r == Err(answer.error)
  {
    hide ValidRemoteId, ValidAlbumName;
    if cancelled {
      return Err(Cancelled), None;
    }
    if !ValidAlbumName(name) {
      return Err(Protocol), None;
    }
    requested := Some(name);
    if answer.Err? {
      return Err(answer.error), requested;
    }
    var albums := answer.value;
    var result: seq<Album> := [];
    for i := 0 to |albums|
      invariant result == albums[..i]
      invariant forall j :: 0 <= j < i ==> Matches(name, albums[j])
    {
      if !Matches(name, albums[i]) {
        assert albums[i] in albums;
        return Err(Protocol), requested;
      }
      result := result + [albums[i]];
    }
    assert result == albums;
    ByIdIsOrdered();
    SortSorts(result, ById());
    r := Ok(Sort(result, ById()));
    forall i, j | 0 <= i < j < |r.value| ensures !Less(r.value[j].id, r.value[i].id) {
      assert ById()(r.value[i], r.value[j]);
    }
  }
}

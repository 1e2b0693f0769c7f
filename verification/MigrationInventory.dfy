/** The asset half of `migration_inventory` in crates/immich-client/src/migration.rs. */
module MigrationInventory {
  import opened ArchiveListing
  import opened MigrationAssets
  import opened Ordering
  import opened Remote
  import opened Sequences
  import opened Wrappers

  datatype InventoryConfig = InventoryConfig(pageSize: nat, maxAssets: nat, maxAlbums: nat, maxAlbumMemberships: nat) {
    predicate Valid() {
      1 <= pageSize <= 1_000 && maxAssets > 0 && maxAlbums > 0 && maxAlbumMemberships > 0
    }
  }

  function TimelineConfig(config: InventoryConfig): ListConfig {
    ListConfig(Timeline, false, config.pageSize, config.maxAssets)
  }

  /** Fetches every listed asset again and checks it still says the same. */
  function Reverify(libraries: Libraries, server: Server, t: nat, listed: seq<RemoteAsset>, assets: seq<MigrationAsset>)
    : Run<seq<MigrationAsset>>
    decreases |listed|
  {
    if |listed| == 0 then Run(Ok(assets), [])
    else if server.cancelled(t) then Run(Err(Cancelled), [Poll])
    else
      var events := [Poll, Fetched(listed[0].assetId)];
      match server.detail(t + 1, listed[0].assetId)
      case Err(error) => Run(Err(error), events)
      case Ok(item) =>
        match ToMigrationAsset(libraries, item)
        case Err(error) => Run(Err(error), events)
        case Ok(asset) =>
          if !Reverifies(asset, listed[0]) then Run(Err(Protocol), events)
          else After(events, Reverify(libraries, server, t + 2, listed[1..], assets + [asset]))
  }

  predicate ById(a: MigrationAsset, b: MigrationAsset) {
    AtMost(a.assetId, b.assetId)
  }

  /** `windows(2)`: each asset's id is below the next one's. */
  predicate StrictlyById(assets: seq<MigrationAsset>) {
    forall i :: 0 <= i < |assets| - 1 ==> Less(assets[i].assetId, assets[i + 1].assetId)
  }

  function SortAndCheck(assets: seq<MigrationAsset>): Result<seq<MigrationAsset>, ErrorClass> {
    var sorted := Sort(assets, ById);
    if StrictlyById(sorted) then Ok(sorted) else Err(Protocol)
  }

  /** `migration_inventory` up to the album phase. */
  function InventoryAssets(libraries: Libraries, server: Server, origin: string, negotiatedOrigin: string,
                           config: InventoryConfig, t: nat)
    : Run<seq<MigrationAsset>>
  {
    if !config.Valid() then Run(Err(Protocol), [])
    else
      var listing := List(libraries, server, origin, negotiatedOrigin, TimelineConfig(config), t);
      match listing.result
      case Err(error) => Run(Err(error), listing.log)
      case Ok(listed) =>
        var checked := Reverify(libraries, server, t + |listing.log|, listed, []);
        match checked.result
        case Err(error) => Run(Err(error), listing.log + checked.log)
        case Ok(assets) => Run(SortAndCheck(assets), listing.log + checked.log)
  }

  // ---------------------------------------------------------------- sorting

  function AssetIds(assets: seq<MigrationAsset>): (ids: seq<string>)
    ensures |ids| == |assets|
    ensures forall i :: 0 <= i < |ids| ==> ids[i] == assets[i].assetId
  {
    Map(assets, (asset: MigrationAsset) => asset.assetId)
  }

  lemma {:induction false} AdjacentAscends(assets: seq<MigrationAsset>, i: nat, j: nat)
    requires StrictlyById(assets) && i < j < |assets|
    ensures Less(assets[i].assetId, assets[j].assetId)
    decreases j - i
  {
    if i + 1 < j {
      AdjacentAscends(assets, i + 1, j);
      LessIsTransitive(assets[i].assetId, assets[i + 1].assetId, assets[j].assetId);
    }
  }

  /** Sorting succeeds exactly when no id is repeated; then the ids are the same ids, ascending, and
      the assets are the same assets. */
  lemma SortAndCheckMeans(assets: seq<MigrationAsset>)
    ensures SortAndCheck(assets).Ok? <==> Distinct(AssetIds(assets))
    ensures SortAndCheck(assets).Ok? ==>
            && AssetIds(SortAndCheck(assets).value) == SortedDistinct(AssetIds(assets))
            && multiset(SortAndCheck(assets).value) == multiset(assets)
  {
    hide Sort, SortedDistinct, Less;
    var ids, sorted := AssetIds(assets), Sort(assets, ById);
    SortPermutes(assets, ById);
    SortSortsIds(assets);
    StringsAreOrdered();
    SortSorts(ids, AtMost);
    DistinctPermutes(ids, AssetIds(sorted));
    if StrictlyById(sorted) {
      forall i, j | 0 <= i < j < |sorted| ensures Less(sorted[i].assetId, sorted[j].assetId) {
        AdjacentAscends(sorted, i, j);
      }
      AscendingIsDistinct(AssetIds(sorted));
    }
    if Distinct(ids) {
      DistinctKeepsLength(ids);
      forall i | 0 <= i < |sorted| - 1 ensures Less(sorted[i].assetId, sorted[i + 1].assetId) {
        assert AtMost(AssetIds(sorted)[i], AssetIds(sorted)[i + 1]);
        LessIsTotal(sorted[i].assetId, sorted[i + 1].assetId);
        assert AssetIds(sorted)[i] != AssetIds(sorted)[i + 1];
      }
    }
  }

  /** Sorting assets by id sorts the ids. */
  lemma {:induction false} SortSortsIds(assets: seq<MigrationAsset>)
    ensures AssetIds(Sort(assets, ById)) == Sort(AssetIds(assets), AtMost)
  {
    if |assets| > 0 {
      SortSortsIds(assets[1..]);
      InsertInsertsId(assets[0], Sort(assets[1..], ById));
      assert AssetIds(assets)[1..] == AssetIds(assets[1..]);
    }
  }

  lemma {:induction false} InsertInsertsId(asset: MigrationAsset, sorted: seq<MigrationAsset>)
    ensures AssetIds(Insert(asset, sorted, ById)) == Insert(asset.assetId, AssetIds(sorted), AtMost)
  {
    if |sorted| > 0 {
      InsertInsertsId(asset, sorted[1..]);
      assert AssetIds(sorted)[1..] == AssetIds(sorted[1..]);
    }
  }

  // ---------------------------------------------------------------- every server

  ghost predicate AllReverify(assets: seq<MigrationAsset>, listed: seq<RemoteAsset>) {
    |assets| == |listed| && forall i :: 0 <= i < |assets| ==> Reverifies(assets[i], listed[i])
  }

  lemma {:induction false} ReverifyChecksEach(libraries: Libraries, server: Server, t: nat, listed: seq<RemoteAsset>,
                                              assets: seq<MigrationAsset>)
    returns (more: seq<MigrationAsset>)
    ensures var run := Reverify(libraries, server, t, listed, assets);
      run.result.Ok? ==> run.result.value == assets + more && AllReverify(more, listed)
    decreases |listed|
  {
    hide ToMigrationAsset, Reverifies;
    more := [];
    var run := Reverify(libraries, server, t, listed, assets);
    if |listed| > 0 && run.result.Ok? {
      var asset := ToMigrationAsset(libraries, server.detail(t + 1, listed[0].assetId).value).value;
      var rest := ReverifyChecksEach(libraries, server, t + 2, listed[1..], assets + [asset]);
      more := [asset] + rest;
      Associative(assets, [asset], rest);
      assert forall i :: 0 < i < |more| ==> more[i] == rest[i - 1] && listed[i] == listed[1..][i - 1];
    }
  }

  lemma ReverifiedIds(assets: seq<MigrationAsset>, listed: seq<RemoteAsset>)
    requires AllReverify(assets, listed)
    ensures AssetIds(assets) == Ids(listed)
  {
  }

  /** The event fetches the asset's id, and the asset carries the facts of the response to that. */
  ghost predicate DetailedBy(libraries: Libraries, server: Server, t: nat, event: Event, asset: MigrationAsset) {
    && event == Fetched(asset.assetId) && server.detail(t, asset.assetId).Ok?
    && IsMigrated(libraries, server.detail(t, asset.assetId).value, asset)
  }

  ghost predicate IsDetailed(libraries: Libraries, server: Server, t: nat, log: seq<Event>, asset: MigrationAsset) {
    exists k :: 0 <= k < |log| && DetailedBy(libraries, server, t + k, log[k], asset)
  }

  lemma DetailedLater(libraries: Libraries, server: Server, t: nat, before: seq<Event>, log: seq<Event>,
                      asset: MigrationAsset)
    requires IsDetailed(libraries, server, t + |before|, log, asset)
    ensures IsDetailed(libraries, server, t, before + log, asset)
  {
    hide DetailedBy;
    var k :| 0 <= k < |log| && DetailedBy(libraries, server, t + |before| + k, log[k], asset);
    assert (before + log)[|before| + k] == log[k];
    assert DetailedBy(libraries, server, t + (|before| + k), (before + log)[|before| + k], asset);
  }

  /** Every re-verified asset is read from the response to its own fetch. */
  lemma {:induction false} ReverifiedAreDetailed(libraries: Libraries, server: Server, t: nat, listed: seq<RemoteAsset>,
                                                 assets: seq<MigrationAsset>, asset: MigrationAsset)
    requires var run := Reverify(libraries, server, t, listed, assets);
      run.result.Ok? && asset in run.result.value && asset !in assets
    ensures IsDetailed(libraries, server, t, Reverify(libraries, server, t, listed, assets).log, asset)
    decreases |listed|
  {
    hide ToMigrationAsset, IsMigrated;
    if |listed| > 0 {
      var item := server.detail(t + 1, listed[0].assetId).value;
      var own := ToMigrationAsset(libraries, item).value;
      var events := [Poll, Fetched(listed[0].assetId)];
      var later := Reverify(libraries, server, t + 2, listed[1..], assets + [own]).log;
      MigratesExactly(libraries, item, own);
      if asset == own {
        assert DetailedBy(libraries, server, t + 1, (events + later)[1], asset);
      } else {
        ReverifiedAreDetailed(libraries, server, t + 2, listed[1..], assets + [own], asset);
        DetailedLater(libraries, server, t, events, later, asset);
      }
    }
  }

  lemma {:induction false} ReverifySearchesNothing(libraries: Libraries, server: Server, t: nat,
                                                   listed: seq<RemoteAsset>, assets: seq<MigrationAsset>)
    ensures forall event :: event in Reverify(libraries, server, t, listed, assets).log ==> !event.Searched?
    decreases |listed|
  {
    hide ToMigrationAsset, Reverifies;
    if |listed| > 0 {
      var answer := server.detail(t + 1, listed[0].assetId);
      if answer.Ok? && ToMigrationAsset(libraries, answer.value).Ok? {
        ReverifySearchesNothing(libraries, server, t + 2, listed[1..],
                                assets + [ToMigrationAsset(libraries, answer.value).value]);
      }
    }
  }

  /** Against every server the asset half asks for pages 1, 2, 3, ... of the timeline, of the configured
      size, with EXIF and without the trash, and for nothing else. */
  lemma InventoryAsksForTheTimeline(libraries: Libraries, server: Server, origin: string, negotiatedOrigin: string,
                                    config: InventoryConfig, t: nat)
    ensures var asked := Searches(InventoryAssets(libraries, server, origin, negotiatedOrigin, config, t).log);
      && |asked| <= config.maxAssets + 1
      && forall i :: 0 <= i < |asked| ==>
           asked[i] == SearchRequest(PageNumber(1, i), config.pageSize, true, None, Timeline, None)
  {
    hide List, Reverify, SortAndCheck;
    SearchesOfNothing();
    if config.Valid() {
      var listing := List(libraries, server, origin, negotiatedOrigin, TimelineConfig(config), t);
      ListAsksInOrder(libraries, server, origin, negotiatedOrigin, TimelineConfig(config), t);
      if listing.result.Ok? {
        var later := t + |listing.log|;
        ReverifySearchesNothing(libraries, server, later, listing.result.value, []);
        OnlySearchesAreSeen(server, t, listing.log,
                            Reverify(libraries, server, later, listing.result.value, []).log);
      }
    }
  }

  /** Against every server: a successful inventory of a valid configuration holds exactly the listed ids,
      once each and ascending; every asset in it is one of the listed ones in all five compared facts, and
      carries the facts of a response to its own fetch. */
  lemma InventoryIsVerified(libraries: Libraries, server: Server, origin: string, negotiatedOrigin: string,
                            config: InventoryConfig, t: nat)
    ensures var run := InventoryAssets(libraries, server, origin, negotiatedOrigin, config, t);
      var listing := List(libraries, server, origin, negotiatedOrigin, TimelineConfig(config), t);
      run.result.Ok? ==>
        && libraries.sha256(origin) == negotiatedOrigin && 1 <= config.pageSize <= 1_000
        && config.maxAssets > 0 && config.maxAlbums > 0 && config.maxAlbumMemberships > 0
        && listing.result.Ok?
        && Distinct(Ids(listing.result.value))
        && AssetIds(run.result.value) == SortedDistinct(Ids(listing.result.value))
        && forall asset :: asset in run.result.value ==>
             && RemoteAsset(asset.assetId, asset.originalFileName, asset.mediaKind, asset.byteLen,
                            asset.checksumSha1) in listing.result.value
             && IsDetailed(libraries, server, t, run.log, asset)
  {
    hide Reverify, SortAndCheck, Reverifies, IsDetailed, ListPages, ListRelated;
    var run := InventoryAssets(libraries, server, origin, negotiatedOrigin, config, t);
    if run.result.Ok? {
      var listing := List(libraries, server, origin, negotiatedOrigin, TimelineConfig(config), t);
      var listed := listing.result.value;
      hide List;
      var later := t + |listing.log|;
      var checked := Reverify(libraries, server, later, listed, []);
      var more := ReverifyChecksEach(libraries, server, later, listed, []);
      assert checked.result.value == more;
      ReverifiedIds(more, listed);
      SortAndCheckMeans(more);
      SameElements(run.result.value, more);
      forall asset | asset in run.result.value
        ensures RemoteAsset(asset.assetId, asset.originalFileName, asset.mediaKind, asset.byteLen, asset.checksumSha1)
                in listed
        ensures IsDetailed(libraries, server, t, run.log, asset)
      {
        var i :| 0 <= i < |more| && more[i] == asset;
        ReverifiesExactly(asset, listed[i]);
        assert listed[i] in listed && Reverifies(asset, listed[i]);
        ReverifiedAreDetailed(libraries, server, later, listed, [], asset);
        DetailedLater(libraries, server, t, listing.log, checked.log, asset);
      }
    }
  }

  // ---------------------------------------------------------------- the loops

  /** The re-verification loop and the sort (lines 108-127). */
  method ReverifyAll(libraries: Libraries, connection: Connection, listed: seq<RemoteAsset>)
    returns (r: Result<seq<MigrationAsset>, ErrorClass>)
    modifies connection
    ensures var run := Reverify(libraries, connection.server, |old(connection.log)|, listed, []);
      r == run.result && connection.log == old(connection.log) + run.log
  {
    hide ToMigrationAsset, Reverifies, Resumes;
    ghost var start := connection.log;
    ghost var run := Reverify(libraries, connection.server, |start|, listed, []);
    ResumesAtStart(start, run);
    var assets: seq<MigrationAsset> := [];
    assert listed[0..] == listed;
    for i := 0 to |listed|
      invariant Resumes(start, run, connection.log,
                        Reverify(libraries, connection.server, |connection.log|, listed[i..], assets))
    {
      var expected := listed[i];
      assert listed[i..][0] == expected && listed[i..][1..] == listed[i + 1..];
      ghost var log := connection.log;
      ResumesUntil(start, run, log, Reverify(libraries, connection.server, |log|, listed[i..], assets));
      var cancelled := connection.CheckCancelled();
      if cancelled {
        return Err(Cancelled);
      }
      var response := connection.Detail(expected.assetId);
      if response.Err? {
        return Err(response.error);
      }
      var asset := ToMigrationAsset(libraries, response.value);
      if asset.Err? {
        return Err(asset.error);
      }
      if !Reverifies(asset.value, expected) {
        return Err(Protocol);
      }
      assets := assets + [asset.value];
      ResumesAfterTwo(start, run, log, Poll, Fetched(expected.assetId),
                      Reverify(libraries, connection.server, |log| + 2, listed[i + 1..], assets));
    }
    ResumesUntil(start, run, connection.log,
                 Reverify(libraries, connection.server, |connection.log|, listed[|listed|..], assets));
    return Ok(assets);
  }

  /** `migration_inventory` up to the album phase. */
  method CollectInventoryAssets(libraries: Libraries, connection: Connection, origin: string, negotiatedOrigin: string,
                                config: InventoryConfig)
    returns (r: Result<seq<MigrationAsset>, ErrorClass>)
    modifies connection
    ensures var run := InventoryAssets(libraries, connection.server, origin, negotiatedOrigin, config,
                                       |old(connection.log)|);
      r == run.result && connection.log == old(connection.log) + run.log
  {
    hide List, Reverify, SortAndCheck;
    if !config.Valid() {
      return Err(Protocol);
    }
    ghost var start := connection.log;
    ghost var listing := List(libraries, connection.server, origin, negotiatedOrigin, TimelineConfig(config), |start|);
    var listed := ListArchiveAssets(libraries, connection, origin, negotiatedOrigin, TimelineConfig(config));
    if listed.Err? {
      return Err(listed.error);
    }
    ghost var checked := Reverify(libraries, connection.server, |start| + |listing.log|, listed.value, []);
    var assets := ReverifyAll(libraries, connection, listed.value);
    Associative(start, listing.log, checked.log);
    if assets.Err? {
      return Err(assets.error);
    }
    return SortAndCheck(assets.value);
  }
}

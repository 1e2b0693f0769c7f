/** What the inventory of an unchanging, honest server is: it does not depend on the page size, on
    how the server splits its pages, or on the order it serves assets in. */
module PagingTransparency {
  import opened ArchiveListing
  import opened MigrationAssets
  import opened MigrationInventory
  import opened Ordering
  import opened Remote
  import opened Sequences
  import opened Wrappers

  /** The timeline split into pages: every page but the last holds something, every id on a page has
      a response, and a response on a page carries its own id. */
  ghost predicate WellFormedPages(responses: map<string, AssetResponse>, pages: seq<seq<string>>) {
    && 1 <= |pages| <= U64_MAX
    && (forall k :: 0 <= k < |pages| - 1 ==> |pages[k]| > 0)
    && KnownIds(responses, Flatten(pages))
  }

  ghost predicate KnownIds(responses: map<string, AssetResponse>, ids: seq<string>) {
    forall i :: 0 <= i < |ids| ==> ids[i] in responses && responses[ids[i]].id == ids[i]
  }

  function Items(responses: map<string, AssetResponse>, ids: seq<string>): (items: seq<AssetResponse>)
    requires KnownIds(responses, ids)
    ensures |items| == |ids|
  {
    seq(|ids|, i requires 0 <= i < |ids| => responses[ids[i]])
  }

  /** The answer to a request for page number k + 1. */
  ghost predicate HonestPage(responses: map<string, AssetResponse>, pages: seq<seq<string>>, k: nat,
                             response: SearchResponse)
    requires k < |pages| && KnownIds(responses, pages[k])
  {
    && response.items == Items(responses, pages[k])
    && response.count == |pages[k]|
    && response.total == |Flatten(pages)|
    && if k == |pages| - 1 then response.nextPage.None?
       else response.nextPage.Some? && ParseU64(response.nextPage.value) == Some(k + 2)
  }

  ghost predicate ServesPage(server: Server, config: ListConfig, responses: map<string, AssetResponse>,
                             pages: seq<seq<string>>, t: nat, k: nat)
    requires k < |pages| && KnownIds(responses, pages[k])
  {
    var request := SearchRequest(k + 1, config.pageSize, true, None, config.visibility,
                                 if config.includeTrashed then Some(true) else None);
    var answer := server.search(t, request);
    answer.Ok? && HonestPage(responses, pages, k, answer.value)
  }

  /** The server answers from the map and the pages whenever it is asked, and nobody cancels. */
  ghost predicate Serves(server: Server, config: ListConfig, responses: map<string, AssetResponse>,
                         pages: seq<seq<string>>)
  {
    && WellFormedPages(responses, pages)
    && (forall k :: 0 <= k < |pages| ==> KnownIds(responses, pages[k]))
    && (forall t :: !server.cancelled(t))
    && (forall t, k :: 0 <= k < |pages| ==> ServesPage(server, config, responses, pages, t, k))
    && ServesDetails(server, responses)
  }

  ghost predicate ServesDetails(server: Server, responses: map<string, AssetResponse>) {
    forall t, id :: if id in responses then server.detail(t, id) == Ok(responses[id]) else server.detail(t, id).Err?
  }

  /** The timeline and the motion videos its live photos name, ascending. */
  function Closure(responses: map<string, AssetResponse>, timeline: seq<string>): seq<string>
    requires KnownIds(responses, timeline)
  {
    SortedDistinct(timeline + RelatedIds(Items(responses, timeline)))
  }

  ghost predicate AllMigrate(libraries: Libraries, responses: map<string, AssetResponse>, ids: seq<string>) {
    forall id :: id in ids ==> Migrates(libraries, responses, id)
  }

  ghost predicate Migrates(libraries: Libraries, responses: map<string, AssetResponse>, id: string) {
    id in responses && responses[id].id == id && ToMigrationAsset(libraries, responses[id]).Ok?
  }

  function Image(libraries: Libraries, responses: map<string, AssetResponse>, ids: seq<string>)
    : (assets: seq<MigrationAsset>)
    requires AllMigrate(libraries, responses, ids)
    ensures |assets| == |ids|
  {
    if |ids| == 0 then []
    else
      assert Migrates(libraries, responses, ids[0]);
      [ToMigrationAsset(libraries, responses[ids[0]]).value] + Image(libraries, responses, ids[1..])
  }

  // ---------------------------------------------------------------- paging

  lemma ConvertComposes(libraries: Libraries, first: seq<AssetResponse>, second: seq<AssetResponse>)
    ensures AllConvert(libraries, first + second) <==> AllConvert(libraries, first) && AllConvert(libraries, second)
  {
    hide ConvertAsset;
    if AllConvert(libraries, first + second) {
      forall i | 0 <= i < |first| ensures ConvertAsset(libraries, first[i]).Ok? {
        assert (first + second)[i] == first[i];
      }
      forall i | 0 <= i < |second| ensures ConvertAsset(libraries, second[i]).Ok? {
        assert (first + second)[|first| + i] == second[i];
      }
    }
  }

  lemma ItemsOfConcat(responses: map<string, AssetResponse>, first: seq<string>, second: seq<string>)
    requires KnownIds(responses, first) && KnownIds(responses, second)
    ensures KnownIds(responses, first + second)
    ensures Items(responses, first + second) == Items(responses, first) + Items(responses, second)
  {
  }

  lemma {:induction false} KnownFrom(responses: map<string, AssetResponse>, pages: seq<seq<string>>, k: nat)
    requires k <= |pages| && forall i :: 0 <= i < |pages| ==> KnownIds(responses, pages[i])
    ensures KnownIds(responses, Flatten(pages[k..]))
    ensures k < |pages| ==> Flatten(pages[k..]) == pages[k] + Flatten(pages[k + 1..])
    decreases |pages| - k
  {
    if k < |pages| {
      KnownFrom(responses, pages, k + 1);
      assert pages[k..][1..] == pages[k + 1..];
    }
  }

  lemma AcceptHonestPage(libraries: Libraries, config: ListConfig, responses: map<string, AssetResponse>,
                         pages: seq<seq<string>>, k: nat, listing: Listing, response: SearchResponse)
    requires k < |pages| <= U64_MAX && KnownIds(responses, pages[k]) && HonestPage(responses, pages, k, response)
    requires k < |pages| - 1 ==> |pages[k]| > 0
    requires |listing.assets| <= config.maxAssets && |Flatten(pages)| <= config.maxAssets
    ensures var step := AcceptPage(libraries, config, k + 1, listing, response);
      var items := Items(responses, pages[k]);
      && (step.Ok? <==> |listing.assets| + |items| <= config.maxAssets && AllConvert(libraries, items))
      && (step.Ok? ==>
            && step.value.listing == Listing(listing.assets + Assets(libraries, items), listing.related + RelatedIds(items))
            && (step.value.Finished? <==> k == |pages| - 1)
            && (step.value.Continue? ==> step.value.page == k + 2))
  {
    TakeItemsIsAllOrNothing(libraries, response.items, config.maxAssets, listing);
  }

  /** From page k + 1 on, an honest server's pages are collected exactly when the rest of the timeline
      converts and fits. */
  lemma {:induction false} HonestPagesAreCollected(libraries: Libraries, server: Server, config: ListConfig,
                                                   responses: map<string, AssetResponse>, pages: seq<seq<string>>,
                                                   t: nat, k: nat, listing: Listing)
    requires Serves(server, config, responses, pages) && k < |pages|
    requires |listing.assets| <= config.maxAssets && |Flatten(pages)| <= config.maxAssets
    ensures KnownIds(responses, Flatten(pages[k..]))
    ensures var run := ListPages(libraries, server, config, t, k + 1, listing);
      var rest := Items(responses, Flatten(pages[k..]));
      && (run.result.Ok? <==> |listing.assets| + |rest| <= config.maxAssets && AllConvert(libraries, rest))
      && (run.result.Ok? ==>
            run.result.value
              == Listing(listing.assets + Assets(libraries, rest), listing.related + RelatedIds(rest)))
    decreases |pages| - k
  {
    hide AcceptPage, HonestPage, ServesDetails, AllConvert, KnownIds;
    KnownFrom(responses, pages, k);
    KnownFrom(responses, pages, k + 1);
    var items := Items(responses, pages[k]);
    var later := Items(responses, Flatten(pages[k + 1..]));
    ItemsOfConcat(responses, pages[k], Flatten(pages[k + 1..]));
    ConvertComposes(libraries, items, later);
    var answer := server.search(t + 1, PageRequest(config, k + 1));
    assert ServesPage(server, config, responses, pages, t + 1, k);
    AcceptHonestPage(libraries, config, responses, pages, k, listing, answer.value);
    var step := AcceptPage(libraries, config, k + 1, listing, answer.value);
    if step.Ok? {
      if k + 1 < |pages| {
        HonestPagesAreCollected(libraries, server, config, responses, pages, t + 2, k + 1, step.value.listing);
        if AllConvert(libraries, later) {
          ItemsCompose(libraries, items, later, listing);
        }
      } else {
        assert pages[k + 1..] == [];
        assert items + later == items;
      }
    }
  }

  lemma TooLongATimeline(libraries: Libraries, server: Server, config: ListConfig,
                         responses: map<string, AssetResponse>, pages: seq<seq<string>>, t: nat, listing: Listing)
    requires Serves(server, config, responses, pages) && |Flatten(pages)| > config.maxAssets
    ensures ListPages(libraries, server, config, t, 1, listing).result.Err?
  {
    var answer := server.search(t + 1, PageRequest(config, 0 + 1));
    assert ServesPage(server, config, responses, pages, t + 1, 0);
  }

  // ---------------------------------------------------------------- related assets

  /** The ids the client can fetch and convert. */
  ghost predicate AllFetch(libraries: Libraries, responses: map<string, AssetResponse>, ids: seq<string>) {
    KnownIds(responses, ids) && AllConvert(libraries, Items(responses, ids))
  }

  lemma FetchSplits(libraries: Libraries, responses: map<string, AssetResponse>, ids: seq<string>)
    requires |ids| > 0
    ensures AllFetch(libraries, responses, ids) <==>
            && ids[0] in responses && responses[ids[0]].id == ids[0]
            && ConvertAsset(libraries, responses[ids[0]]).Ok?
            && AllFetch(libraries, responses, ids[1..])
    ensures AllFetch(libraries, responses, ids) ==>
            Assets(libraries, Items(responses, ids))
              == [ConvertAsset(libraries, responses[ids[0]]).value.asset]
                 + Assets(libraries, Items(responses, ids[1..]))
  {
    hide ConvertAsset;
    if KnownIds(responses, ids) {
      assert Items(responses, ids)[1..] == Items(responses, ids[1..]);
      AllConvertSplits(libraries, Items(responses, ids));
    }
    if KnownIds(responses, ids[1..]) && ids[0] in responses && responses[ids[0]].id == ids[0] {
      assert ids == [ids[0]] + ids[1..];
    }
  }

  /** With an unchanging server the related phase succeeds exactly when what is missing can be
      fetched, converts and fits. */
  lemma {:induction false} HonestRelatedAreFetched(libraries: Libraries, server: Server, maxAssets: nat,
                                                   responses: map<string, AssetResponse>, t: nat, ids: seq<string>,
                                                   assets: seq<RemoteAsset>)
    requires ServesDetails(server, responses) && forall u :: !server.cancelled(u)
    requires Ascending(ids) && |assets| <= maxAssets
    ensures var run := ListRelated(libraries, server, maxAssets, t, ids, assets);
      var missing := Missing(ids, assets);
      && (run.result.Ok? <==> |assets| + |missing| <= maxAssets && AllFetch(libraries, responses, missing))
      && (run.result.Ok? ==> run.result.value == assets + Assets(libraries, Items(responses, missing)))
    decreases |ids|
  {
    hide HasId, ConvertAsset, AllFetch, Assets, Items, AllConvert;
    var missing := Missing(ids, assets);
    if |ids| == 0 {
      NothingToFetch(libraries, responses);
      assert assets + [] == assets;
    } else {
      AscendingTail(ids);
      var id, later := ids[0], Missing(ids[1..], assets);
      if HasId(assets, id) {
        assert missing == later;
        HonestRelatedAreFetched(libraries, server, maxAssets, responses, t, ids[1..], assets);
      } else {
        assert missing == [id] + later && missing[1..] == later;
        FetchSplits(libraries, responses, missing);
        var answer := server.detail(t + 1, id);
        assert if id in responses then answer == Ok(responses[id]) else answer.Err?;
        if |assets| < maxAssets && id in responses && ConvertAsset(libraries, responses[id]).Ok? {
          var asset := ConvertAsset(libraries, responses[id]).value.asset;
          ConvertedRelated(libraries, responses[id]);
          if asset.assetId == id {
            MissingIgnores(ids[1..], assets, asset);
            HonestRelatedAreFetched(libraries, server, maxAssets, responses, t + 2, ids[1..], assets + [asset]);
            if AllFetch(libraries, responses, later) {
              FetchedAreKnown(libraries, responses, later);
              Associative(assets, [asset], Assets(libraries, Items(responses, later)));
            }
          }
        }
      }
    }
  }

  lemma NothingToFetch(libraries: Libraries, responses: map<string, AssetResponse>)
    ensures AllFetch(libraries, responses, []) && Assets(libraries, Items(responses, [])) == []
  {
  }

  lemma FetchedAreKnown(libraries: Libraries, responses: map<string, AssetResponse>, ids: seq<string>)
    requires AllFetch(libraries, responses, ids)
    ensures KnownIds(responses, ids) && AllConvert(libraries, Items(responses, ids))
  {
  }

  // ---------------------------------------------------------------- the listing

  /** The timeline followed by the motion videos it does not contain. */
  function ListedIds(libraries: Libraries, responses: map<string, AssetResponse>, timeline: seq<string>): seq<string>
    requires AllFetch(libraries, responses, timeline)
  {
    var items := Items(responses, timeline);
    timeline + Missing(SortedDistinct(RelatedIds(items)), Assets(libraries, items))
  }

  lemma {:induction false} IdsOfAssets(libraries: Libraries, responses: map<string, AssetResponse>, ids: seq<string>)
    requires AllFetch(libraries, responses, ids)
    ensures Ids(Assets(libraries, Items(responses, ids))) == ids
  {
    if |ids| > 0 {
      FetchSplits(libraries, responses, ids);
      ConvertedRelated(libraries, responses[ids[0]]);
      hide ConvertAsset;
      IdsOfAssets(libraries, responses, ids[1..]);
      assert ids == [ids[0]] + ids[1..];
      IdsCompose([ConvertAsset(libraries, responses[ids[0]]).value.asset], Assets(libraries, Items(responses, ids[1..])));
    }
  }

  /** The listed ids are the closure: the same set, and as many. */
  lemma ListedIdsAreTheClosure(libraries: Libraries, responses: map<string, AssetResponse>, timeline: seq<string>)
    requires AllFetch(libraries, responses, timeline) && Distinct(timeline)
    ensures var ids := ListedIds(libraries, responses, timeline);
      && Distinct(ids)
      && SortedDistinct(ids) == Closure(responses, timeline)
      && |ids| == |Closure(responses, timeline)|
      && forall id :: id in ids <==> id in Closure(responses, timeline)
  {
    hide AllFetch, ConvertAsset, AllConvert;
    FetchedAreKnown(libraries, responses, timeline);
    var items := Items(responses, timeline);
    var related := SortedDistinct(RelatedIds(items));
    var assets := Assets(libraries, items);
    var missing := Missing(related, assets);
    IdsOfAssets(libraries, responses, timeline);
    SortedDistinctIsTheSet(RelatedIds(items));
    MissingMeans(related, assets);
    AscendingIsDistinct(missing);
    DistinctPieces(timeline, missing);
    var ids := timeline + missing;
    SortedDistinctDependsOnSet(ids, timeline + RelatedIds(items));
    DistinctKeepsLength(ids);
    SortedDistinctIsTheSet(ids);
  }

  lemma FetchComposes(libraries: Libraries, responses: map<string, AssetResponse>, first: seq<string>, second: seq<string>)
    ensures AllFetch(libraries, responses, first + second) <==>
            AllFetch(libraries, responses, first) && AllFetch(libraries, responses, second)
    ensures AllFetch(libraries, responses, first) && AllFetch(libraries, responses, second) ==>
            Assets(libraries, Items(responses, first + second))
              == Assets(libraries, Items(responses, first)) + Assets(libraries, Items(responses, second))
  {
    hide ConvertAsset, Assets;
    if KnownIds(responses, first + second) {
      forall i | 0 <= i < |first| ensures first[i] in responses && responses[first[i]].id == first[i] {
        assert (first + second)[i] == first[i];
      }
      forall i | 0 <= i < |second| ensures second[i] in responses && responses[second[i]].id == second[i] {
        assert (first + second)[|first| + i] == second[i];
      }
    }
    if KnownIds(responses, first) && KnownIds(responses, second) {
      ItemsOfConcat(responses, first, second);
      ConvertComposes(libraries, Items(responses, first), Items(responses, second));
      if AllFetch(libraries, responses, first) && AllFetch(libraries, responses, second) {
        AssetsCompose(libraries, Items(responses, first), Items(responses, second));
      }
    }
  }

  /** The listing of an honest server. */
  lemma HonestListing(libraries: Libraries, server: Server, origin: string, negotiatedOrigin: string,
                      config: ListConfig, responses: map<string, AssetResponse>, pages: seq<seq<string>>, t: nat)
    requires Serves(server, config, responses, pages) && 1 <= config.pageSize <= 1_000 && config.maxAssets > 0
    requires libraries.sha256(origin) == negotiatedOrigin
    ensures var run := List(libraries, server, origin, negotiatedOrigin, config, t);
      var timeline := Flatten(pages);
      && (run.result.Ok? <==>
            && AllFetch(libraries, responses, timeline)
            && |ListedIds(libraries, responses, timeline)| <= config.maxAssets
            && AllFetch(libraries, responses, ListedIds(libraries, responses, timeline)))
      && (run.result.Ok? ==>
            run.result.value == Assets(libraries, Items(responses, ListedIds(libraries, responses, timeline))))
  {
    hide ListPages, ListRelated, Missing, SortedDistinct, AllConvert, Serves, Assets, KnownIds, Items;
    hide RelatedIds;
    var timeline := Flatten(pages);
    HonestPaging(libraries, server, config, responses, pages, t);
    var paging := ListPages(libraries, server, config, t, 1, Listing([], []));
    if paging.result.Ok? {
      HonestRelated(libraries, server, config, responses, pages, t + |paging.log|);
    }
  }

  lemma HonestPaging(libraries: Libraries, server: Server, config: ListConfig, responses: map<string, AssetResponse>,
                     pages: seq<seq<string>>, t: nat)
    requires Serves(server, config, responses, pages)
    ensures var paging := ListPages(libraries, server, config, t, 1, Listing([], []));
      var timeline := Flatten(pages);
      && KnownIds(responses, timeline)
      && (paging.result.Ok? <==> |timeline| <= config.maxAssets && AllFetch(libraries, responses, timeline))
      && (paging.result.Ok? ==> paging.result.value == Honest(libraries, responses, timeline))
  {
    hide ListPages, ServesPage, AllConvert, ConvertAsset;
    var timeline := Flatten(pages);
    if |timeline| > config.maxAssets {
      TooLongATimeline(libraries, server, config, responses, pages, t, Listing([], []));
    } else {
      assert pages[0..] == pages;
      HonestPagesAreCollected(libraries, server, config, responses, pages, t, 0, Listing([], []));
    }
  }

  /** What the client has collected when it has seen the whole timeline. */
  function Honest(libraries: Libraries, responses: map<string, AssetResponse>, timeline: seq<string>): Listing
    requires AllFetch(libraries, responses, timeline)
  {
    Listing(Assets(libraries, Items(responses, timeline)), RelatedIds(Items(responses, timeline)))
  }

  lemma HonestRelated(libraries: Libraries, server: Server, config: ListConfig, responses: map<string, AssetResponse>,
                      pages: seq<seq<string>>, t: nat)
    requires Serves(server, config, responses, pages)
    requires AllFetch(libraries, responses, Flatten(pages)) && |Flatten(pages)| <= config.maxAssets
    ensures var listing := Honest(libraries, responses, Flatten(pages));
      var ids := ListedIds(libraries, responses, Flatten(pages));
      var run := ListRelated(libraries, server, config.maxAssets, t, SortedDistinct(listing.related), listing.assets);
      && (run.result.Ok? <==> |ids| <= config.maxAssets && AllFetch(libraries, responses, ids))
      && (run.result.Ok? ==> run.result.value == Assets(libraries, Items(responses, ids)))
  {
    hide ListRelated, Missing, SortedDistinct, ServesPage, AllFetch, Assets, Items;
    var timeline := Flatten(pages);
    FetchedAreKnown(libraries, responses, timeline);
    var listing := Honest(libraries, responses, timeline);
    var ids := SortedDistinct(listing.related);
    SortedDistinctIsTheSet(listing.related);
    HonestRelatedAreFetched(libraries, server, config.maxAssets, responses, t, ids, listing.assets);
    FetchComposes(libraries, responses, timeline, Missing(ids, listing.assets));
  }

  // ---------------------------------------------------------------- the inventory

  lemma MigrateSplits(libraries: Libraries, responses: map<string, AssetResponse>, ids: seq<string>)
    requires |ids| > 0
    ensures AllMigrate(libraries, responses, ids) <==>
            Migrates(libraries, responses, ids[0]) && AllMigrate(libraries, responses, ids[1..])
  {
    hide Migrates;
    assert ids == [ids[0]] + ids[1..];
  }

  lemma {:induction false} ImageAt(libraries: Libraries, responses: map<string, AssetResponse>, ids: seq<string>, i: nat)
    requires AllMigrate(libraries, responses, ids) && i < |ids|
    ensures Migrates(libraries, responses, ids[i])
    ensures Image(libraries, responses, ids)[i] == ToMigrationAsset(libraries, responses[ids[i]]).value
    ensures Image(libraries, responses, ids)[i].assetId == ids[i]
    decreases i
  {
    assert Migrates(libraries, responses, ids[i]);
    if i > 0 {
      hide ToMigrationAsset, Migrates;
      ImageAt(libraries, responses, ids[1..], i - 1);
    }
  }

  /** With an unchanging server re-verification fails only on an asset that cannot be migrated. */
  lemma {:induction false} HonestReverification(libraries: Libraries, server: Server,
                                                responses: map<string, AssetResponse>, t: nat, ids: seq<string>,
                                                assets: seq<MigrationAsset>)
    requires ServesDetails(server, responses) && forall u :: !server.cancelled(u)
    requires AllFetch(libraries, responses, ids)
    ensures var run := Reverify(libraries, server, t, Assets(libraries, Items(responses, ids)), assets);
      && (run.result.Ok? <==> AllMigrate(libraries, responses, ids))
      && (run.result.Ok? ==> run.result.value == assets + Image(libraries, responses, ids))
    decreases |ids|
  {
    if |ids| == 0 {
      assert assets + [] == assets;
    } else {
      hide ConvertAsset, ToMigrationAsset, Reverifies, AllFetch, AllMigrate;
      FetchSplits(libraries, responses, ids);
      MigrateSplits(libraries, responses, ids);
      var item := responses[ids[0]];
      ConvertedRelated(libraries, item);
      assert server.detail(t + 1, ids[0]) == Ok(item);
      assert Migrates(libraries, responses, ids[0]) <==> ToMigrationAsset(libraries, item).Ok?;
      if ToMigrationAsset(libraries, item).Ok? {
        var asset := ToMigrationAsset(libraries, item).value;
        MigrationRefinesListing(libraries, item);
        HonestReverification(libraries, server, responses, t + 2, ids[1..], assets + [asset]);
        if AllMigrate(libraries, responses, ids) {
          MigrateSplits(libraries, responses, ids);
          Associative(assets, [asset], Image(libraries, responses, ids[1..]));
        }
      }
    }
  }

  lemma MigratingIsFetching(libraries: Libraries, responses: map<string, AssetResponse>, ids: seq<string>)
    requires AllMigrate(libraries, responses, ids)
    ensures AllFetch(libraries, responses, ids)
  {
    hide ToMigrationAsset, ConvertAsset;
    assert forall i :: 0 <= i < |ids| ==> Migrates(libraries, responses, ids[i]);
    forall i | 0 <= i < |ids| ensures ConvertAsset(libraries, Items(responses, ids)[i]).Ok? {
      assert Migrates(libraries, responses, ids[i]);
      MigrationRefinesListing(libraries, responses[ids[i]]);
    }
  }

  lemma ImageIds(libraries: Libraries, responses: map<string, AssetResponse>, ids: seq<string>)
    requires AllMigrate(libraries, responses, ids)
    ensures AssetIds(Image(libraries, responses, ids)) == ids
  {
    forall i | 0 <= i < |ids| ensures Image(libraries, responses, ids)[i].assetId == ids[i] {
      ImageAt(libraries, responses, ids, i);
    }
  }

  /** Sorting the image of a list of ids gives the image of the sorted list. */
  lemma SortedImage(libraries: Libraries, responses: map<string, AssetResponse>, ids: seq<string>, sortedIds: seq<string>)
    requires AllMigrate(libraries, responses, ids) && Distinct(ids)
    requires AllMigrate(libraries, responses, sortedIds) && sortedIds == SortedDistinct(ids)
    ensures SortAndCheck(Image(libraries, responses, ids)) == Ok(Image(libraries, responses, sortedIds))
  {
    hide SortAndCheck, SortedDistinct, ToMigrationAsset, Migrates, Image, AllMigrate;
    var image := Image(libraries, responses, ids);
    ImageIds(libraries, responses, ids);
    SortAndCheckMeans(image);
    var sorted := SortAndCheck(image).value;
    SameElements(sorted, image);
    var expected := Image(libraries, responses, sortedIds);
    forall i | 0 <= i < |sorted| ensures sorted[i] == expected[i] {
      assert sorted[i] in image;
      var j :| 0 <= j < |image| && image[j] == sorted[i];
      assert ids[j] == AssetIds(image)[j] == AssetIds(sorted)[i] == sortedIds[i];
      ImageAt(libraries, responses, ids, j);
      ImageAt(libraries, responses, sortedIds, i);
    }
    assert sorted == expected;
    assert SortAndCheck(image).Ok?;
  }

  lemma HonestImage(libraries: Libraries, server: Server, origin: string, negotiatedOrigin: string,
                        config: InventoryConfig, responses: map<string, AssetResponse>, pages: seq<seq<string>>, t: nat)
    requires Serves(server, TimelineConfig(config), responses, pages) && config.Valid()
    requires libraries.sha256(origin) == negotiatedOrigin
    requires Distinct(Flatten(pages))
    ensures var run := InventoryAssets(libraries, server, origin, negotiatedOrigin, config, t);
      var closure := Closure(responses, Flatten(pages));
      && (run.result.Ok? <==> |closure| <= config.maxAssets && AllMigrate(libraries, responses, closure))
      && (run.result.Ok? ==> run.result.value == Image(libraries, responses, closure))
  {
    hide List, Reverify, SortAndCheck, AllFetch, AllMigrate, Closure, ListedIds, Assets, KnownIds;
    var timeline := Flatten(pages);
    var closure := Closure(responses, timeline);
    HonestListing(libraries, server, origin, negotiatedOrigin, TimelineConfig(config), responses, pages, t);
    var listing := List(libraries, server, origin, negotiatedOrigin, TimelineConfig(config), t);
    if AllFetch(libraries, responses, timeline) {
      var ids := ListedIds(libraries, responses, timeline);
      ListedIdsAreTheClosure(libraries, responses, timeline);
      MigratingDependsOnSet(libraries, responses, ids, closure);
      if AllMigrate(libraries, responses, ids) {
        MigratingIsFetching(libraries, responses, ids);
      }
      if listing.result.Ok? {
        HonestReverification(libraries, server, responses, t + |listing.log|, ids, []);
        if AllMigrate(libraries, responses, ids) {
          assert [] + Image(libraries, responses, ids) == Image(libraries, responses, ids);
          SortedImage(libraries, responses, ids, closure);
        }
      }
    } else if AllMigrate(libraries, responses, closure) {
      ClosureContainsTimeline(responses, timeline);
      assert AllMigrate(libraries, responses, timeline) by {
        SomeMigrate(libraries, responses, closure, timeline);
      }
      MigratingIsFetching(libraries, responses, timeline);
    }
  }

  /** The timeline and the motion videos its live photos name, ascending. */
  ghost predicate IsClosure(responses: map<string, AssetResponse>, timeline: seq<string>, closure: seq<string>) {
    && Ascending(closure)
    && forall id :: id in closure <==>
         id in timeline || exists i :: 0 <= i < |timeline| && timeline[i] in responses
                                       && responses[timeline[i]].livePhotoVideoId == Some(id)
  }

  lemma ClosureIsTheClosure(responses: map<string, AssetResponse>, timeline: seq<string>, closure: seq<string>)
    requires KnownIds(responses, timeline) && IsClosure(responses, timeline, closure)
    ensures closure == Closure(responses, timeline)
  {
    hide SortedDistinct, RelatedIds;
    var own := timeline + RelatedIds(Items(responses, timeline));
    RelatedMeans(responses, timeline);
    SortedDistinctIsTheSet(own);
    forall id ensures id in closure <==> id in Closure(responses, timeline) {
      assert id in own <==> id in timeline || id in RelatedIds(Items(responses, timeline));
    }
    AscendingIsUnique(closure, Closure(responses, timeline));
  }

  lemma {:induction false} ImageIsMigrated(libraries: Libraries, responses: map<string, AssetResponse>, ids: seq<string>,
                                           i: nat)
    requires AllMigrate(libraries, responses, ids) && i < |ids|
    ensures ids[i] in responses && IsMigrated(libraries, responses[ids[i]], Image(libraries, responses, ids)[i])
  {
    hide ToMigrationAsset, IsMigrated, Image;
    ImageAt(libraries, responses, ids, i);
    MigratesExactly(libraries, responses[ids[i]], Image(libraries, responses, ids)[i]);
  }

  /** Pages of 1 to 1000, and room for something of each kind. */
  predicate IsUsable(config: InventoryConfig) {
    1 <= config.pageSize <= 1000 && config.maxAssets >= 1 && config.maxAlbums >= 1 && config.maxAlbumMemberships >= 1
  }

  ghost predicate CanMigrate(libraries: Libraries, responses: map<string, AssetResponse>, id: string) {
    id in responses && responses[id].id == id && Migratable(libraries, responses[id])
  }

  lemma MigratesMeans(libraries: Libraries, responses: map<string, AssetResponse>, id: string)
    ensures Migrates(libraries, responses, id) <==> CanMigrate(libraries, responses, id)
  {
    hide ToMigrationAsset, Migratable;
    if id in responses {
      MigratableExactly(libraries, responses[id]);
    }
  }

  /** An honest server's inventory: the ascending closure of its timeline, each asset carrying the facts of
      its response, field by field. It succeeds exactly when the closure fits and all of it can be migrated. */
  lemma HonestInventory(libraries: Libraries, server: Server, origin: string, negotiatedOrigin: string,
                        config: InventoryConfig, responses: map<string, AssetResponse>, pages: seq<seq<string>>,
                        closure: seq<string>, t: nat)
    requires Serves(server, ListConfig(Timeline, false, config.pageSize, config.maxAssets), responses, pages)
    requires IsUsable(config) && libraries.sha256(origin) == negotiatedOrigin
    requires Distinct(Flatten(pages)) && IsClosure(responses, Flatten(pages), closure)
    ensures var run := InventoryAssets(libraries, server, origin, negotiatedOrigin, config, t);
      && (run.result.Ok? <==>
            |closure| <= config.maxAssets && forall id :: id in closure ==> CanMigrate(libraries, responses, id))
      && (run.result.Ok? ==>
            && |run.result.value| == |closure|
            && forall i :: 0 <= i < |closure| ==>
                 closure[i] in responses && IsMigrated(libraries, responses[closure[i]], run.result.value[i]))
  {
    hide InventoryAssets, Closure, IsClosure, Migrates, CanMigrate, IsMigrated, Image, Distinct;
    ClosureIsTheClosure(responses, Flatten(pages), closure);
    HonestImage(libraries, server, origin, negotiatedOrigin, config, responses, pages, t);
    forall id ensures Migrates(libraries, responses, id) <==> CanMigrate(libraries, responses, id) {
      MigratesMeans(libraries, responses, id);
    }
    if AllMigrate(libraries, responses, closure) {
      forall i | 0 <= i < |closure|
        ensures closure[i] in responses
                && IsMigrated(libraries, responses[closure[i]], Image(libraries, responses, closure)[i])
      {
        ImageIsMigrated(libraries, responses, closure, i);
      }
    }
  }

  lemma ClosureContainsTimeline(responses: map<string, AssetResponse>, timeline: seq<string>)
    requires KnownIds(responses, timeline)
    ensures forall id :: id in timeline ==> id in Closure(responses, timeline)
  {
    SortedDistinctIsTheSet(timeline + RelatedIds(Items(responses, timeline)));
  }

  lemma SomeMigrate(libraries: Libraries, responses: map<string, AssetResponse>, all: seq<string>, some: seq<string>)
    requires AllMigrate(libraries, responses, all) && forall id :: id in some ==> id in all
    ensures AllMigrate(libraries, responses, some)
  {
    hide Migrates;
  }

  lemma MigratingDependsOnSet(libraries: Libraries, responses: map<string, AssetResponse>, a: seq<string>, b: seq<string>)
    requires forall id :: id in a <==> id in b
    ensures AllMigrate(libraries, responses, a) <==> AllMigrate(libraries, responses, b)
  {
    hide Migrates;
  }

  /** Two honest servers with the same responses and the same timeline give the same inventory,
      whatever their pages, their order and the page sizes asked for. */
  lemma PagingIsTransparent(libraries: Libraries, origin: string, negotiatedOrigin: string,
                            responses: map<string, AssetResponse>,
                            server: Server, config: InventoryConfig, pages: seq<seq<string>>, t: nat,
                            server': Server, config': InventoryConfig, pages': seq<seq<string>>, t': nat)
    requires libraries.sha256(origin) == negotiatedOrigin
    requires Serves(server, ListConfig(Timeline, false, config.pageSize, config.maxAssets), responses, pages)
    requires Serves(server', ListConfig(Timeline, false, config'.pageSize, config'.maxAssets), responses, pages')
    requires IsUsable(config) && IsUsable(config')
    requires Distinct(Flatten(pages)) && multiset(Flatten(pages)) == multiset(Flatten(pages'))
    requires config.maxAssets == config'.maxAssets
    ensures var first := InventoryAssets(libraries, server, origin, negotiatedOrigin, config, t).result;
      var second := InventoryAssets(libraries, server', origin, negotiatedOrigin, config', t').result;
      && (first.Ok? <==> second.Ok?)
      && (first.Ok? ==> first.value == second.value)
  {
    hide InventoryAssets, SortedDistinct, AllMigrate, RelatedIds;
    var timeline, timeline' := Flatten(pages), Flatten(pages');
    DistinctPermutes(timeline, timeline');
    SameElements(timeline, timeline');
    RelatedDependOnSet(responses, timeline, timeline');
    SortedDistinctDependsOnSet(timeline + RelatedIds(Items(responses, timeline)),
                               timeline' + RelatedIds(Items(responses, timeline')));
    HonestImage(libraries, server, origin, negotiatedOrigin, config, responses, pages, t);
    HonestImage(libraries, server', origin, negotiatedOrigin, config', responses, pages', t');
  }

  lemma RelatedDependOnSet(responses: map<string, AssetResponse>, a: seq<string>, b: seq<string>)
    requires KnownIds(responses, a) && KnownIds(responses, b)
    requires forall id :: id in a <==> id in b
    ensures forall video :: video in RelatedIds(Items(responses, a)) <==> video in RelatedIds(Items(responses, b))
  {
    RelatedMeans(responses, a);
    RelatedMeans(responses, b);
  }

  lemma {:induction false} RelatedMeans(responses: map<string, AssetResponse>, ids: seq<string>)
    requires KnownIds(responses, ids)
    ensures forall video :: video in RelatedIds(Items(responses, ids)) <==>
              exists id :: id in ids && responses[id].livePhotoVideoId == Some(video)
  {
    if |ids| > 0 {
      RelatedMeans(responses, ids[1..]);
      assert Items(responses, ids)[1..] == Items(responses, ids[1..]);
      assert ids == [ids[0]] + ids[1..];
    }
  }

  // ---------------------------------------------------------------- such servers exist

  /** The decimal digits of a page number. */
  function Decimal(n: nat): (text: string)
    ensures |text| > 0
  {
    var digit := [(n % 10 + '0' as int) as char];
    if n < 10 then digit else Decimal(n / 10) + digit
  }

  lemma {:induction false} DecimalReads(n: nat)
    ensures AllDigits(Decimal(n)) && DecimalValue(Decimal(n)) == n
    decreases n
  {
    var text := Decimal(n);
    if n < 10 {
      assert text[..0] == [];
    } else {
      DecimalReads(n / 10);
      assert text[..|text| - 1] == Decimal(n / 10);
      assert n == 10 * (n / 10) + n % 10;
    }
  }

  lemma DecimalParses(n: nat)
    requires n <= U64_MAX
    ensures ParseU64(Decimal(n)) == Some(n)
  {
    DecimalReads(n);
    hide Decimal, DecimalValue;
    assert Decimal(n)[0] != '+';
  }

  lemma {:induction false} PagesAreKnown(responses: map<string, AssetResponse>, pages: seq<seq<string>>, k: nat)
    requires KnownIds(responses, Flatten(pages)) && k < |pages|
    ensures KnownIds(responses, pages[k])
    decreases |pages|
  {
    var first, rest := pages[0], Flatten(pages[1..]);
    assert Flatten(pages) == first + rest;
    assert forall i :: 0 <= i < |first| ==> first[i] == (first + rest)[i];
    assert forall i :: 0 <= i < |rest| ==> rest[i] == (first + rest)[|first| + i];
    if k > 0 {
      PagesAreKnown(responses, pages[1..], k - 1);
    }
  }

  ghost function PageResponse(responses: map<string, AssetResponse>, pages: seq<seq<string>>, k: nat): SearchResponse
    requires k < |pages| && KnownIds(responses, pages[k])
  {
    SearchResponse(Items(responses, pages[k]), |pages[k]|, if k == |pages| - 1 then None else Some(Decimal(k + 2)),
                   |Flatten(pages)|)
  }

  /** A server for a split of the timeline into pages. */
  ghost function HonestServer(responses: map<string, AssetResponse>, pages: seq<seq<string>>): Server
    requires forall k :: 0 <= k < |pages| ==> KnownIds(responses, pages[k])
  {
    Server(
      (t: nat) => false,
      (t: nat, request: SearchRequest) =>
        if 1 <= request.page <= |pages| then Ok(PageResponse(responses, pages, request.page - 1)) else Err(Protocol),
      (t: nat, id: string) => if id in responses then Ok(responses[id]) else Err(Protocol),
      (t: nat) => Ok([]))
  }

  /** Every well-formed split of a timeline is served by some server. */
  lemma EverySplitIsServed(config: ListConfig, responses: map<string, AssetResponse>, pages: seq<seq<string>>)
    requires WellFormedPages(responses, pages)
    ensures exists server :: Serves(server, config, responses, pages)
  {
    forall k | 0 <= k < |pages| ensures KnownIds(responses, pages[k]) {
      PagesAreKnown(responses, pages, k);
    }
    hide KnownIds, Flatten, Items, Decimal, ParseU64;
    var server := HonestServer(responses, pages);
    forall t: nat, k: nat | k < |pages| ensures ServesPage(server, config, responses, pages, t, k) {
      if k < |pages| - 1 {
        DecimalParses(k + 2);
      }
    }
    assert Serves(server, config, responses, pages);
  }
}

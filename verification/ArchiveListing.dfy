/** `list_archive_assets` of crates/immich-client/src/archive.rs: bounded paging against an untrusted
    server, then the motion videos its live photos refer to. */
module ArchiveListing {
  import opened Ordering
  import opened Remote
  import opened Sequences
  import opened Wrappers
  import Hex

  datatype ListConfig = ListConfig(visibility: Visibility, includeTrashed: bool, pageSize: nat, maxAssets: nat) {
    predicate Valid() {
      1 <= pageSize <= 1_000 && maxAssets > 0
    }
  }

  datatype RemoteAsset = RemoteAsset(
    assetId: string,
    originalFileName: string,
    mediaKind: MediaKind,
    byteLen: nat,
    checksumSha1: string)

  datatype Converted = Converted(asset: RemoteAsset, related: Option<string>)

  /** The two vectors the paging loop pushes to. */
  datatype Listing = Listing(assets: seq<RemoteAsset>, related: seq<string>)

  datatype PageStep = Finished(listing: Listing) | Continue(listing: Listing, page: nat)

  function ConvertAsset(libraries: Libraries, item: AssetResponse): Result<Converted, ErrorClass> {
    if item.kind.Audio? || item.kind.Other? then Err(Protocol)
    else
      var decoded := libraries.base64(item.checksum);
      if decoded.None? || |decoded.value| != 20 then Err(Protocol)
      else if item.exif.None? || item.exif.value.fileSize.None? then Err(Protocol)
      else
        Ok(Converted(
             RemoteAsset(item.id, item.originalFileName, if item.kind.Image? then ImageKind else VideoKind,
                         item.exif.value.fileSize.value, Hex.Encode(decoded.value)),
             item.livePhotoVideoId))
  }

  function PageRequest(config: ListConfig, page: nat): SearchRequest {
    SearchRequest(page, config.pageSize, true, None, config.visibility,
                  if config.includeTrashed then Some(true) else None)
  }

  function Push(listing: Listing, converted: Converted): Listing {
    Listing(listing.assets + [converted.asset],
            if converted.related.Some? then listing.related + [converted.related.value] else listing.related)
  }

  function TakeItems(libraries: Libraries, items: seq<AssetResponse>, maxAssets: nat, listing: Listing)
    : Result<Listing, ErrorClass>
    decreases |items|
  {
    if |items| == 0 then Ok(listing)
    else if |listing.assets| >= maxAssets then Err(Protocol)
    else
      match ConvertAsset(libraries, items[0])
      case Err(error) => Err(error)
      case Ok(converted) => TakeItems(libraries, items[1..], maxAssets, Push(listing, converted))
  }

  /** What the client makes of one page, and where it goes next. */
  function AcceptPage(libraries: Libraries, config: ListConfig, page: nat, listing: Listing, response: SearchResponse)
    : Result<PageStep, ErrorClass>
  {
    if response.total > config.maxAssets || response.count != |response.items| then Err(Protocol)
    else
      match TakeItems(libraries, response.items, config.maxAssets, listing)
      case Err(error) => Err(error)
      case Ok(taken) =>
        if response.nextPage.None? then Ok(Finished(taken))
        else if response.count == 0 then Err(Protocol)
        else
          var parsed := ParseU64(response.nextPage.value);
          if parsed.None? || parsed.value != SaturatingNext(page) then Err(Protocol)
          else Ok(Continue(taken, parsed.value))
  }

  function ListPages(libraries: Libraries, server: Server, config: ListConfig, t: nat, page: nat, listing: Listing)
    : Run<Listing>
    decreases config.maxAssets - |listing.assets|
  {
    if server.cancelled(t) then Run(Err(Cancelled), [Poll])
    else
      var request := PageRequest(config, page);
      var events := [Poll, Searched(request)];
      match server.search(t + 1, request)
      case Err(error) => Run(Err(error), events)
      case Ok(response) =>
        match AcceptPage(libraries, config, page, listing, response)
        case Err(error) => Run(Err(error), events)
        case Ok(Finished(taken)) => Run(Ok(taken), events)
        case Ok(Continue(taken, next)) =>
          AcceptedPagesGrow(libraries, config, page, listing, response);
          After(events, ListPages(libraries, server, config, t + 2, next, taken))
  }

  function Ids(assets: seq<RemoteAsset>): (ids: seq<string>)
    ensures |ids| == |assets|
    ensures forall i :: 0 <= i < |ids| ==> ids[i] == assets[i].assetId
  {
    seq(|assets|, i requires 0 <= i < |assets| => assets[i].assetId)
  }

  predicate HasId(assets: seq<RemoteAsset>, id: string) {
    id in Ids(assets)
  }

  function ListRelated(libraries: Libraries, server: Server, maxAssets: nat, t: nat, ids: seq<string>,
                       assets: seq<RemoteAsset>)
    : Run<seq<RemoteAsset>>
    decreases |ids|
  {
    if |ids| == 0 then Run(Ok(assets), [])
    else if HasId(assets, ids[0]) then ListRelated(libraries, server, maxAssets, t, ids[1..], assets)
    else if |assets| >= maxAssets then Run(Err(Protocol), [])
    else if server.cancelled(t) then Run(Err(Cancelled), [Poll])
    else
      var events := [Poll, Fetched(ids[0])];
      match server.detail(t + 1, ids[0])
      case Err(error) => Run(Err(error), events)
      case Ok(item) =>
        match ConvertAsset(libraries, item)
        case Err(error) => Run(Err(error), events)
        case Ok(converted) =>
          if converted.asset.assetId != ids[0] then Run(Err(Protocol), events)
          else
            After(events, ListRelated(libraries, server, maxAssets, t + 2, ids[1..], assets + [converted.asset]))
  }

  /** The whole call, as a function of the server and of how many events came before. */
  function List(libraries: Libraries, server: Server, origin: string, negotiatedOrigin: string, config: ListConfig,
                t: nat)
    : Run<seq<RemoteAsset>>
  {
    if libraries.sha256(origin) != negotiatedOrigin then Run(Err(Compatibility), [])
    else if !config.Valid() then Run(Err(Protocol), [])
    else
      var pages := ListPages(libraries, server, config, t, 1, Listing([], []));
      match pages.result
      case Err(error) => Run(Err(error), pages.log)
      case Ok(listing) =>
        After(pages.log, ListRelated(libraries, server, config.maxAssets, t + |pages.log|,
                                     SortedDistinct(listing.related), listing.assets))
  }

  // ---------------------------------------------------------------- one page

  /** The converted items, in order. */
  function Assets(libraries: Libraries, items: seq<AssetResponse>): (r: seq<RemoteAsset>)
    requires AllConvert(libraries, items)
    ensures |r| == |items|
  {
    if |items| == 0 then []
    else [ConvertAsset(libraries, items[0]).value.asset] + Assets(libraries, items[1..])
  }

  ghost predicate AllConvert(libraries: Libraries, items: seq<AssetResponse>) {
    forall i :: 0 <= i < |items| ==> ConvertAsset(libraries, items[i]).Ok?
  }

  /** The live-photo ids of the items, in order. */
  function RelatedIds(items: seq<AssetResponse>): seq<string> {
    if |items| == 0 then []
    else (if items[0].livePhotoVideoId.Some? then [items[0].livePhotoVideoId.value] else []) + RelatedIds(items[1..])
  }

  lemma {:induction false} TakeItemsSucceeds(libraries: Libraries, items: seq<AssetResponse>, maxAssets: nat,
                                             listing: Listing)
    requires |listing.assets| <= maxAssets
    ensures TakeItems(libraries, items, maxAssets, listing).Ok? <==>
            |listing.assets| + |items| <= maxAssets && AllConvert(libraries, items)
    decreases |items|
  {
    hide ConvertAsset;
    if |items| > 0 {
      var converted := ConvertAsset(libraries, items[0]);
      AllConvertSplits(libraries, items);
      if |listing.assets| < maxAssets && converted.Ok? {
        TakeItemsSucceeds(libraries, items[1..], maxAssets, Push(listing, converted.value));
      }
    }
  }

  lemma {:induction false} TakenItems(libraries: Libraries, items: seq<AssetResponse>, maxAssets: nat, listing: Listing)
    requires AllConvert(libraries, items)
    requires TakeItems(libraries, items, maxAssets, listing).Ok?
    ensures TakeItems(libraries, items, maxAssets, listing).value
         == Listing(listing.assets + Assets(libraries, items), listing.related + RelatedIds(items))
    decreases |items|
  {
    if |items| > 0 {
      var converted := ConvertAsset(libraries, items[0]).value;
      ConvertedRelated(libraries, items[0]);
      hide ConvertAsset;
      TakenItems(libraries, items[1..], maxAssets, Push(listing, converted));
      Associative(listing.assets, [converted.asset], Assets(libraries, items[1..]));
      var first := if converted.related.Some? then [converted.related.value] else [];
      Associative(listing.related, first, RelatedIds(items[1..]));
      assert Push(listing, converted).related == listing.related + first;
    }
  }

  lemma ConvertedRelated(libraries: Libraries, item: AssetResponse)
    requires ConvertAsset(libraries, item).Ok?
    ensures ConvertAsset(libraries, item).value.related == item.livePhotoVideoId
    ensures ConvertAsset(libraries, item).value.asset.assetId == item.id
  {
  }

  /** A page is taken exactly when all of it converts and fits; then all of it is pushed in order. */
  lemma TakeItemsIsAllOrNothing(libraries: Libraries, items: seq<AssetResponse>, maxAssets: nat, listing: Listing)
    requires |listing.assets| <= maxAssets
    ensures var taken := TakeItems(libraries, items, maxAssets, listing);
      && (taken.Ok? <==> |listing.assets| + |items| <= maxAssets && AllConvert(libraries, items))
      && (taken.Ok? ==> taken.value == Listing(listing.assets + Assets(libraries, items),
                                               listing.related + RelatedIds(items)))
  {
    TakeItemsSucceeds(libraries, items, maxAssets, listing);
    if TakeItems(libraries, items, maxAssets, listing).Ok? {
      TakenItems(libraries, items, maxAssets, listing);
    }
  }

  lemma AllConvertSplits(libraries: Libraries, items: seq<AssetResponse>)
    requires |items| > 0
    ensures AllConvert(libraries, items) <==>
            ConvertAsset(libraries, items[0]).Ok? && AllConvert(libraries, items[1..])
  {
    assert items == [items[0]] + items[1..];
  }

  /** Every page that names a successor adds at least one asset and names exactly the next page. */
  lemma AcceptedPagesGrow(libraries: Libraries, config: ListConfig, page: nat, listing: Listing,
                          response: SearchResponse)
    ensures var step := AcceptPage(libraries, config, page, listing, response);
      step.Ok? && step.value.Continue? ==>
      |listing.assets| < |step.value.listing.assets| <= config.maxAssets && step.value.page == SaturatingNext(page)
  {
    if |listing.assets| <= config.maxAssets {
      TakeItemsIsAllOrNothing(libraries, response.items, config.maxAssets, listing);
    }
  }

  // ---------------------------------------------------------------- one response

  /** The asset has the response's id, name, family and size, and its checksum in hexadecimal. */
  ghost predicate ReadsAs(libraries: Libraries, item: AssetResponse, asset: RemoteAsset) {
    && asset.assetId == item.id && asset.originalFileName == item.originalFileName
    && ((item.kind.Image? && asset.mediaKind.ImageKind?) || (item.kind.Video? && asset.mediaKind.VideoKind?))
    && item.exif.Some? && item.exif.value.fileSize == Some(asset.byteLen)
    && libraries.base64(item.checksum).Some? && |libraries.base64(item.checksum).value| == 20
    && asset.checksumSha1 == Hex.Encode(libraries.base64(item.checksum).value)
  }

  /** A response converts exactly to the asset that carries its facts, with its own live-photo id. */
  lemma ConvertsExactly(libraries: Libraries, item: AssetResponse, asset: RemoteAsset, related: Option<string>)
    ensures ConvertAsset(libraries, item) == Ok(Converted(asset, related)) <==>
            ReadsAs(libraries, item, asset) && related == item.livePhotoVideoId
  {
  }

  ghost predicate Readable(libraries: Libraries, item: AssetResponse) {
    exists asset :: ReadsAs(libraries, item, asset)
  }

  lemma ReadableExactly(libraries: Libraries, item: AssetResponse)
    ensures ConvertAsset(libraries, item).Ok? <==> Readable(libraries, item)
  {
    hide ReadsAs;
    var converted := ConvertAsset(libraries, item);
    if converted.Ok? {
      ConvertsExactly(libraries, item, converted.value.asset, converted.value.related);
    }
    if asset :| ReadsAs(libraries, item, asset) {
      ConvertsExactly(libraries, item, asset, item.livePhotoVideoId);
    }
  }

  /** A page is accepted exactly when its total and its items fit, its count is right, every item can be
      read, and the page it names next, if any, is the next one and this one is not empty. */
  lemma PageIsAcceptedExactly(libraries: Libraries, config: ListConfig, page: nat, listing: Listing,
                              response: SearchResponse)
    requires |listing.assets| <= config.maxAssets
    ensures var step := AcceptPage(libraries, config, page, listing, response);
      && (step.Ok? <==>
            && response.total <= config.maxAssets && response.count == |response.items|
            && |listing.assets| + |response.items| <= config.maxAssets
            && (forall i :: 0 <= i < |response.items| ==> Readable(libraries, response.items[i]))
            && (response.nextPage.Some? ==>
                  && |response.items| > 0
                  && ParseU64(response.nextPage.value) == Some(if page < U64_MAX then page + 1 else U64_MAX)))
      && (step.Ok? ==> (step.value.Finished? <==> response.nextPage.None?))
  {
    hide ConvertAsset, Readable;
    TakeItemsIsAllOrNothing(libraries, response.items, config.maxAssets, listing);
    forall i | 0 <= i < |response.items|
      ensures ConvertAsset(libraries, response.items[i]).Ok? <==> Readable(libraries, response.items[i])
    {
      ReadableExactly(libraries, response.items[i]);
    }
  }

  lemma {:induction false} AssetsAreRead(libraries: Libraries, items: seq<AssetResponse>, i: nat)
    requires AllConvert(libraries, items) && i < |items|
    ensures ReadsAs(libraries, items[i], Assets(libraries, items)[i])
    decreases i
  {
    hide ReadsAs, ConvertAsset;
    if i == 0 {
      var converted := ConvertAsset(libraries, items[0]).value;
      ConvertsExactly(libraries, items[0], converted.asset, converted.related);
    } else {
      AssetsAreRead(libraries, items[1..], i - 1);
    }
  }

  lemma {:induction false} RelatedIdsAreNamed(items: seq<AssetResponse>)
    ensures forall id :: id in RelatedIds(items) <==> Names(items, id)
  {
    if |items| > 0 {
      RelatedIdsAreNamed(items[1..]);
      assert items == [items[0]] + items[1..];
      forall id ensures id in RelatedIds(items) <==> Names(items, id) {
        NamesSplits(items, id);
      }
    }
  }

  /** Some item is a live photo with this motion video. */
  ghost predicate Names(items: seq<AssetResponse>, id: string) {
    exists i :: 0 <= i < |items| && items[i].livePhotoVideoId == Some(id)
  }

  lemma NamesSplits(items: seq<AssetResponse>, id: string)
    requires |items| > 0
    ensures Names(items, id) <==> items[0].livePhotoVideoId == Some(id) || Names(items[1..], id)
  {
    if Names(items, id) && items[0].livePhotoVideoId != Some(id) {
      var i :| 0 <= i < |items| && items[i].livePhotoVideoId == Some(id);
      assert items[1..][i - 1] == items[i];
    }
    if i :| 0 <= i < |items[1..]| && items[1..][i].livePhotoVideoId == Some(id) {
      assert items[i + 1] == items[1..][i];
    }
  }

  /** The events fetch the asset's id, and the response to that carries the asset's facts. */
  ghost predicate IsFetched(libraries: Libraries, server: Server, t: nat, log: seq<Event>, asset: RemoteAsset) {
    exists k :: 0 <= k < |log| && FetchedBy(libraries, server, t + k, log[k], asset)
  }

  ghost predicate FetchedBy(libraries: Libraries, server: Server, t: nat, event: Event, asset: RemoteAsset) {
    && event == Fetched(asset.assetId) && server.detail(t, asset.assetId).Ok?
    && ReadsAs(libraries, server.detail(t, asset.assetId).value, asset)
  }

  lemma FetchedLater(libraries: Libraries, server: Server, t: nat, before: seq<Event>, log: seq<Event>, asset: RemoteAsset)
    requires IsFetched(libraries, server, t + |before|, log, asset)
    ensures IsFetched(libraries, server, t, before + log, asset)
  {
    hide FetchedBy;
    var k :| 0 <= k < |log| && FetchedBy(libraries, server, t + |before| + k, log[k], asset);
    assert (before + log)[|before| + k] == log[k];
    assert FetchedBy(libraries, server, t + (|before| + k), (before + log)[|before| + k], asset);
  }

  // ---------------------------------------------------------------- every server

  /** The search requests among the events, in order. */
  function Searches(log: seq<Event>): seq<SearchRequest> {
    if |log| == 0 then []
    else (if log[0].Searched? then [log[0].request] else []) + Searches(log[1..])
  }

  /** The items of every page the events received, in order. */
  function Seen(server: Server, t: nat, log: seq<Event>): seq<AssetResponse>
    decreases |log|
  {
    if |log| == 0 then [] else SeenAt(server, t, log[0]) + Seen(server, t + 1, log[1..])
  }

  function SeenAt(server: Server, t: nat, event: Event): seq<AssetResponse> {
    if event.Searched? && server.search(t, event.request).Ok? then server.search(t, event.request).value.items else []
  }

  /** The page after `page` that the i-th request asks for; the counter stops at the 64-bit ceiling. */
  function PageNumber(page: nat, i: nat): nat {
    if page + i < U64_MAX then page + i else U64_MAX
  }

  lemma SearchesOfStep(request: SearchRequest, rest: seq<Event>)
    ensures Searches([Poll, Searched(request)] + rest) == [request] + Searches(rest)
  {
    var events := [Poll, Searched(request)] + rest;
    assert events[1..] == [Searched(request)] + rest;
    assert events[1..][1..] == rest;
  }

  function SearchOf(event: Event): seq<SearchRequest> {
    if event.Searched? then [event.request] else []
  }

  lemma SearchesStep(log: seq<Event>)
    requires |log| > 0
    ensures Searches(log) == SearchOf(log[0]) + Searches(log[1..])
  {
  }

  lemma {:induction false} SearchesConcat(first: seq<Event>, second: seq<Event>)
    ensures Searches(first + second) == Searches(first) + Searches(second)
    decreases |first|
  {
    var all := first + second;
    if |first| == 0 {
      assert all == second;
    } else {
      assert all[1..] == first[1..] + second;
      SearchesConcat(first[1..], second);
      SearchesStep(all);
      SearchesStep(first);
      hide Searches;
      Associative(SearchOf(first[0]), Searches(first[1..]), Searches(second));
    }
  }

  lemma SeenInStep(server: Server, t: nat, event: Event, rest: seq<Event>)
    ensures Seen(server, t, [Poll, event] + rest) == SeenAt(server, t + 1, event) + Seen(server, t + 2, rest)
  {
    var events := [Poll, event] + rest;
    assert events[1..] == [event] + rest;
    assert events[1..][1..] == rest;
  }

  /** The requests are this one, the same for the next page, the same for the page after that, and so on. */
  ghost predicate InOrder(asked: seq<SearchRequest>, first: SearchRequest) {
    |asked| == 0 || (asked[0] == first && InOrder(asked[1..], first.(page := SaturatingNext(first.page))))
  }

  lemma {:induction false} InOrderAt(asked: seq<SearchRequest>, first: SearchRequest, i: nat)
    requires InOrder(asked, first) && i < |asked| && first.page <= U64_MAX
    ensures asked[i] == first.(page := PageNumber(first.page, i))
    decreases i
  {
    if i > 0 {
      InOrderAt(asked[1..], first.(page := SaturatingNext(first.page)), i - 1);
    }
  }

  /** Against every server the pages are asked for in order, and at most one request is made for
      each asset there is still room for, plus one. */
  lemma {:induction false} PagesAreAskedInOrder(libraries: Libraries, server: Server, config: ListConfig, t: nat,
                                                page: nat, listing: Listing)
    requires |listing.assets| <= config.maxAssets
    ensures var asked := Searches(ListPages(libraries, server, config, t, page, listing).log);
      |asked| <= config.maxAssets - |listing.assets| + 1 && InOrder(asked, PageRequest(config, page))
    decreases config.maxAssets - |listing.assets|
  {
    hide AcceptPage, Searches;
    var run := ListPages(libraries, server, config, t, page, listing);
    var request := PageRequest(config, page);
    SearchesOfNothing();
    if !server.cancelled(t) {
      SearchesOfStep(request, []);
      assert [Poll, Searched(request)] + [] == [Poll, Searched(request)];
      var answer := server.search(t + 1, request);
      if answer.Ok? {
        var step := AcceptPage(libraries, config, page, listing, answer.value);
        AcceptedPagesGrow(libraries, config, page, listing, answer.value);
        if step.Ok? && step.value.Continue? {
          var rest := ListPages(libraries, server, config, t + 2, step.value.page, step.value.listing);
          PagesAreAskedInOrder(libraries, server, config, t + 2, step.value.page, step.value.listing);
          SearchesOfStep(request, rest.log);
          assert ([request] + Searches(rest.log))[1..] == Searches(rest.log);
        }
      }
    }
  }

  lemma SearchesOfNothing()
    ensures Searches([]) == [] && Searches([Poll]) == []
  {
  }

  /** When paging succeeds, the listing holds every item of every page, converted, in order, and every
      live-photo id those items named. */
  lemma {:induction false} PagesAreCollected(libraries: Libraries, server: Server, config: ListConfig, t: nat,
                                             page: nat, listing: Listing)
    requires |listing.assets| <= config.maxAssets
    ensures var run := ListPages(libraries, server, config, t, page, listing);
      var seen := Seen(server, t, run.log);
      run.result.Ok? ==>
        && AllConvert(libraries, seen)
        && run.result.value == Listing(listing.assets + Assets(libraries, seen), listing.related + RelatedIds(seen))
        && |run.result.value.assets| <= config.maxAssets
    decreases config.maxAssets - |listing.assets|
  {
    hide AcceptPage, AllConvert, Seen;
    var run := ListPages(libraries, server, config, t, page, listing);
    var request := PageRequest(config, page);
    if run.result.Ok? {
      var response := server.search(t + 1, request).value;
      var step := AcceptPage(libraries, config, page, listing, response).value;
      AcceptedPageIsTaken(libraries, config, page, listing, response);
      if step.Finished? {
        assert [Poll, Searched(request)] == [Poll, Searched(request)] + [];
        SeenInStep(server, t, Searched(request), []);
        SeenNothing(server, t + 2);
        assert response.items + [] == response.items;
      } else {
        AcceptedPagesGrow(libraries, config, page, listing, response);
        var rest := ListPages(libraries, server, config, t + 2, step.page, step.listing);
        PagesAreCollected(libraries, server, config, t + 2, step.page, step.listing);
        SeenInStep(server, t, Searched(request), rest.log);
        ItemsCompose(libraries, response.items, Seen(server, t + 2, rest.log), listing);
      }
    }
  }

  lemma SeenNothing(server: Server, t: nat)
    ensures Seen(server, t, []) == []
  {
  }

  lemma AcceptedPageIsTaken(libraries: Libraries, config: ListConfig, page: nat, listing: Listing,
                            response: SearchResponse)
    requires |listing.assets| <= config.maxAssets
    requires AcceptPage(libraries, config, page, listing, response).Ok?
    ensures var taken := AcceptPage(libraries, config, page, listing, response).value.listing;
      && AllConvert(libraries, response.items)
      && taken == Listing(listing.assets + Assets(libraries, response.items),
                          listing.related + RelatedIds(response.items))
      && |taken.assets| <= config.maxAssets
  {
    TakeItemsIsAllOrNothing(libraries, response.items, config.maxAssets, listing);
  }

  lemma ItemsCompose(libraries: Libraries, first: seq<AssetResponse>, second: seq<AssetResponse>, listing: Listing)
    requires AllConvert(libraries, first) && AllConvert(libraries, second)
    ensures AllConvert(libraries, first + second)
    ensures listing.assets + Assets(libraries, first) + Assets(libraries, second)
         == listing.assets + Assets(libraries, first + second)
    ensures listing.related + RelatedIds(first) + RelatedIds(second)
         == listing.related + RelatedIds(first + second)
  {
    AssetsCompose(libraries, first, second);
    RelatedIdsCompose(first, second);
    Associative(listing.assets, Assets(libraries, first), Assets(libraries, second));
    Associative(listing.related, RelatedIds(first), RelatedIds(second));
  }

  lemma {:induction false} AssetsCompose(libraries: Libraries, first: seq<AssetResponse>, second: seq<AssetResponse>)
    requires AllConvert(libraries, first) && AllConvert(libraries, second)
    ensures AllConvert(libraries, first + second)
    ensures Assets(libraries, first + second) == Assets(libraries, first) + Assets(libraries, second)
  {
    hide ConvertAsset;
    if |first| == 0 {
      assert first + second == second;
    } else {
      assert (first + second)[1..] == first[1..] + second;
      AssetsCompose(libraries, first[1..], second);
    }
  }

  lemma {:induction false} RelatedIdsCompose(first: seq<AssetResponse>, second: seq<AssetResponse>)
    ensures RelatedIds(first + second) == RelatedIds(first) + RelatedIds(second)
  {
    if |first| == 0 {
      assert first + second == second;
    } else {
      var all := first + second;
      assert all[1..] == first[1..] + second;
      RelatedIdsCompose(first[1..], second);
      RelatedIdsStep(all);
      RelatedIdsStep(first);
      hide RelatedIds;
      Associative(OwnRelated(first[0]), RelatedIds(first[1..]), RelatedIds(second));
    }
  }

  function OwnRelated(item: AssetResponse): seq<string> {
    if item.livePhotoVideoId.Some? then [item.livePhotoVideoId.value] else []
  }

  lemma RelatedIdsStep(items: seq<AssetResponse>)
    requires |items| > 0
    ensures RelatedIds(items) == OwnRelated(items[0]) + RelatedIds(items[1..])
  {
  }

  // ---------------------------------------------------------------- related assets

  /** The ids no listed asset has. */
  function Missing(ids: seq<string>, assets: seq<RemoteAsset>): seq<string> {
    if |ids| == 0 then []
    else (if HasId(assets, ids[0]) then [] else [ids[0]]) + Missing(ids[1..], assets)
  }

  lemma {:induction false} MissingMeans(ids: seq<string>, assets: seq<RemoteAsset>)
    ensures forall id :: id in Missing(ids, assets) <==> id in ids && !HasId(assets, id)
    ensures Ascending(ids) ==> Ascending(Missing(ids, assets))
  {
    hide HasId;
    if |ids| > 0 {
      var rest := Missing(ids[1..], assets);
      MissingMeans(ids[1..], assets);
      assert ids == [ids[0]] + ids[1..];
      if Ascending(ids) {
        AscendingTail(ids);
        AscendingBelow(ids);
        ConsAscends(ids[0], rest);
      }
    }
  }

  lemma AscendingBelow(ids: seq<string>)
    requires |ids| > 0 && Ascending(ids)
    ensures forall id :: id in ids[1..] ==> Less(ids[0], id)
  {
  }

  lemma ConsAscends(id: string, rest: seq<string>)
    requires Ascending(rest) && forall other :: other in rest ==> Less(id, other)
    ensures Ascending([id] + rest)
  {
  }

  lemma IdsCompose(first: seq<RemoteAsset>, second: seq<RemoteAsset>)
    ensures Ids(first + second) == Ids(first) + Ids(second)
  {
  }

  lemma {:induction false} MissingIgnores(ids: seq<string>, assets: seq<RemoteAsset>, asset: RemoteAsset)
    requires asset.assetId !in ids
    ensures Missing(ids, assets + [asset]) == Missing(ids, assets)
  {
    if |ids| > 0 {
      IdsCompose(assets, [asset]);
      assert Ids([asset]) == [asset.assetId];
      MissingIgnores(ids[1..], assets, asset);
    }
  }

  /** On success each missing id has been fetched once, in the order of the ids, within the limit. */
  lemma {:induction false} RelatedAreAppended(libraries: Libraries, server: Server, maxAssets: nat, t: nat,
                                              ids: seq<string>, assets: seq<RemoteAsset>)
    returns (extras: seq<RemoteAsset>)
    requires Ascending(ids) && |assets| <= maxAssets
    ensures var run := ListRelated(libraries, server, maxAssets, t, ids, assets);
      run.result.Ok? ==>
        && run.result.value == assets + extras && |run.result.value| <= maxAssets
        && Ids(extras) == Missing(ids, assets)
    decreases |ids|
  {
    hide HasId, ConvertAsset;
    extras := [];
    var run := ListRelated(libraries, server, maxAssets, t, ids, assets);
    if |ids| > 0 && run.result.Ok? {
      AscendingTail(ids);
      if HasId(assets, ids[0]) {
        extras := RelatedAreAppended(libraries, server, maxAssets, t, ids[1..], assets);
      } else {
        var asset := ConvertAsset(libraries, server.detail(t + 1, ids[0]).value).value.asset;
        var more := RelatedAreAppended(libraries, server, maxAssets, t + 2, ids[1..], assets + [asset]);
        extras := [asset] + more;
        MissingIgnores(ids[1..], assets, asset);
        Associative(assets, [asset], more);
      }
    }
  }

  /** What the related phase adds was fetched under its own id. */
  lemma {:induction false} RelatedAreFetched(libraries: Libraries, server: Server, maxAssets: nat, t: nat,
                                             ids: seq<string>, assets: seq<RemoteAsset>, asset: RemoteAsset)
    requires var run := ListRelated(libraries, server, maxAssets, t, ids, assets);
      run.result.Ok? && asset in run.result.value && asset !in assets
    ensures IsFetched(libraries, server, t, ListRelated(libraries, server, maxAssets, t, ids, assets).log, asset)
    decreases |ids|
  {
    hide HasId, ConvertAsset, ReadsAs;
    if |ids| > 0 {
      if HasId(assets, ids[0]) {
        RelatedAreFetched(libraries, server, maxAssets, t, ids[1..], assets, asset);
      } else {
        var item := server.detail(t + 1, ids[0]).value;
        var converted := ConvertAsset(libraries, item).value;
        var events := [Poll, Fetched(ids[0])];
        var later := ListRelated(libraries, server, maxAssets, t + 2, ids[1..], assets + [converted.asset]).log;
        ConvertsExactly(libraries, item, converted.asset, converted.related);
        if asset == converted.asset {
          assert FetchedBy(libraries, server, t + 1, (events + later)[1], asset);
        } else {
          RelatedAreFetched(libraries, server, maxAssets, t + 2, ids[1..], assets + [converted.asset], asset);
          FetchedLater(libraries, server, t, events, later, asset);
        }
      }
    }
  }

  lemma {:induction false} RelatedSearchNothing(libraries: Libraries, server: Server, maxAssets: nat, t: nat,
                                                ids: seq<string>, assets: seq<RemoteAsset>)
    ensures forall event :: event in ListRelated(libraries, server, maxAssets, t, ids, assets).log ==> !event.Searched?
    decreases |ids|
  {
    hide HasId, ConvertAsset;
    if |ids| > 0 {
      RelatedSearchNothing(libraries, server, maxAssets, t, ids[1..], assets);
      var answer := server.detail(t + 1, ids[0]);
      if answer.Ok? && ConvertAsset(libraries, answer.value).Ok? {
        var asset := ConvertAsset(libraries, answer.value).value.asset;
        RelatedSearchNothing(libraries, server, maxAssets, t + 2, ids[1..], assets + [asset]);
      }
    }
  }

  lemma {:induction false} OnlySearchesAreSeen(server: Server, t: nat, log: seq<Event>, rest: seq<Event>)
    requires forall event :: event in rest ==> !event.Searched?
    ensures Seen(server, t, log + rest) == Seen(server, t, log)
    ensures Searches(log + rest) == Searches(log)
    decreases |log| + |rest|
  {
    if |log| > 0 {
      assert (log + rest)[1..] == log[1..] + rest;
      OnlySearchesAreSeen(server, t + 1, log[1..], rest);
    } else {
      assert log + rest == rest;
      if |rest| > 0 {
        OnlySearchesAreSeen(server, t + 1, [], rest[1..]);
        assert [] + rest[1..] == rest[1..];
      }
    }
  }

  // ---------------------------------------------------------------- the whole call

  /** Against every server: pages 1, 2, 3, ... of the configured size and visibility are asked for, with
      EXIF and across albums, at most one more than there may be assets. */
  lemma ListAsksInOrder(libraries: Libraries, server: Server, origin: string, negotiatedOrigin: string,
                        config: ListConfig, t: nat)
    ensures var asked := Searches(List(libraries, server, origin, negotiatedOrigin, config, t).log);
      && |asked| <= config.maxAssets + 1
      && (forall i :: 0 <= i < |asked| ==>
            asked[i] == SearchRequest(PageNumber(1, i), config.pageSize, true, None, config.visibility,
                                      if config.includeTrashed then Some(true) else None))
      && (config.maxAssets < U64_MAX ==> forall i :: 0 <= i < |asked| ==> asked[i].page == i + 1)
  {
    hide ListPages, ListRelated, InOrder, Searches;
    SearchesOfNothing();
    var run := List(libraries, server, origin, negotiatedOrigin, config, t);
    if libraries.sha256(origin) == negotiatedOrigin && config.Valid() {
      var pages := ListPages(libraries, server, config, t, 1, Listing([], []));
      PagesAreAskedInOrder(libraries, server, config, t, 1, Listing([], []));
      if pages.result.Ok? {
        var ids, assets := SortedDistinct(pages.result.value.related), pages.result.value.assets;
        var related := ListRelated(libraries, server, config.maxAssets, t + |pages.log|, ids, assets);
        RelatedSearchNothing(libraries, server, config.maxAssets, t + |pages.log|, ids, assets);
        OnlySearchesAreSeen(server, t, pages.log, related.log);
      }
      var asked := Searches(run.log);
      forall i | 0 <= i < |asked| ensures asked[i] == PageRequest(config, 1).(page := PageNumber(1, i)) {
        InOrderAt(asked, PageRequest(config, 1), i);
      }
    }
  }

  /** Fits the limit, begins with every page item in order, and goes on with one asset for each
      live-photo id the items named and did not contain, ascending. */
  ghost predicate Appended(libraries: Libraries, maxAssets: nat, seen: seq<AssetResponse>, extras: seq<RemoteAsset>,
                           listed: seq<RemoteAsset>)
  {
    && AllConvert(libraries, seen)
    && listed == Assets(libraries, seen) + extras
    && |listed| <= maxAssets
    && Ascending(Ids(extras))
    && forall id :: id in Ids(extras) <==> id in RelatedIds(seen) && !HasId(Assets(libraries, seen), id)
  }

  lemma CollectedIsAppended(libraries: Libraries, server: Server, config: ListConfig, t: nat,
                            seen: seq<AssetResponse>, listing: Listing)
    returns (extras: seq<RemoteAsset>)
    requires AllConvert(libraries, seen) && |listing.assets| <= config.maxAssets
    requires listing == Listing(Assets(libraries, seen), RelatedIds(seen))
    ensures var run := ListRelated(libraries, server, config.maxAssets, t, SortedDistinct(listing.related),
                                   listing.assets);
      run.result.Ok? ==> Appended(libraries, config.maxAssets, seen, extras, run.result.value)
  {
    hide ListRelated, AllConvert, HasId;
    var ids := SortedDistinct(listing.related);
    SortedDistinctIsTheSet(listing.related);
    extras := RelatedAreAppended(libraries, server, config.maxAssets, t, ids, listing.assets);
    MissingMeans(ids, listing.assets);
  }

  /** Against every server a successful listing is what the pages held, and what was fetched after. */
  lemma ListIsAppended(libraries: Libraries, server: Server, origin: string, negotiatedOrigin: string,
                       config: ListConfig, t: nat)
    returns (extras: seq<RemoteAsset>)
    ensures var run := List(libraries, server, origin, negotiatedOrigin, config, t);
      run.result.Ok? ==>
      && Appended(libraries, config.maxAssets, Seen(server, t, run.log), extras, run.result.value)
      && forall asset :: asset in extras ==> IsFetched(libraries, server, t, run.log, asset)
  {
    hide ListPages, ListRelated, AllConvert, Appended, IsFetched;
    extras := [];
    var run := List(libraries, server, origin, negotiatedOrigin, config, t);
    if run.result.Ok? {
      var pages := ListPages(libraries, server, config, t, 1, Listing([], []));
      PagesAreCollected(libraries, server, config, t, 1, Listing([], []));
      var listing := pages.result.value;
      var seen := Seen(server, t, pages.log);
      FromNothing(libraries, seen, listing);
      var ids, later := SortedDistinct(listing.related), t + |pages.log|;
      extras := CollectedIsAppended(libraries, server, config, later, seen, listing);
      RelatedSearchNothing(libraries, server, config.maxAssets, later, ids, listing.assets);
      var related := ListRelated(libraries, server, config.maxAssets, later, ids, listing.assets);
      OnlySearchesAreSeen(server, t, pages.log, related.log);
      ExtrasAreFetched(libraries, server, config.maxAssets, t, pages.log, seen, ids, extras);
    }
  }

  lemma ExtrasAreFetched(libraries: Libraries, server: Server, maxAssets: nat, t: nat, before: seq<Event>,
                         seen: seq<AssetResponse>, ids: seq<string>, extras: seq<RemoteAsset>)
    requires AllConvert(libraries, seen)
    requires var related := ListRelated(libraries, server, maxAssets, t + |before|, ids, Assets(libraries, seen));
      related.result.Ok? && Appended(libraries, maxAssets, seen, extras, related.result.value)
    ensures var related := ListRelated(libraries, server, maxAssets, t + |before|, ids, Assets(libraries, seen));
      forall asset :: asset in extras ==> IsFetched(libraries, server, t, before + related.log, asset)
  {
    hide ListRelated, AllConvert, Appended, IsFetched, Assets;
    var related := ListRelated(libraries, server, maxAssets, t + |before|, ids, Assets(libraries, seen));
    forall asset | asset in extras ensures IsFetched(libraries, server, t, before + related.log, asset) {
      ExtrasAreNew(libraries, maxAssets, seen, extras, related.result.value, asset);
      RelatedAreFetched(libraries, server, maxAssets, t + |before|, ids, Assets(libraries, seen), asset);
      FetchedLater(libraries, server, t, before, related.log, asset);
    }
  }

  lemma ExtrasAreNew(libraries: Libraries, maxAssets: nat, seen: seq<AssetResponse>, extras: seq<RemoteAsset>,
                     listed: seq<RemoteAsset>, asset: RemoteAsset)
    requires Appended(libraries, maxAssets, seen, extras, listed) && asset in extras
    ensures asset in listed && asset !in Assets(libraries, seen)
  {
    hide AllConvert;
    var i :| 0 <= i < |extras| && extras[i] == asset;
    var assets := Assets(libraries, seen);
    assert Ids(extras)[i] == asset.assetId;
    assert asset.assetId in Ids(extras) && !HasId(assets, asset.assetId);
    assert listed[|assets| + i] == asset;
    forall j | 0 <= j < |assets| ensures HasId(assets, assets[j].assetId) {
      assert Ids(assets)[j] == assets[j].assetId;
    }
  }

  lemma FromNothing(libraries: Libraries, seen: seq<AssetResponse>, listing: Listing)
    requires AllConvert(libraries, seen)
    requires listing == Listing([] + Assets(libraries, seen), [] + RelatedIds(seen))
    ensures listing == Listing(Assets(libraries, seen), RelatedIds(seen))
  {
  }

  lemma DistinctPieces(first: seq<string>, second: seq<string>)
    requires Distinct(first) && Distinct(second)
    requires forall id :: id in second ==> id !in first
    ensures Distinct(first + second)
  {
    var all := first + second;
    forall i, j | 0 <= i < j < |all| ensures all[i] != all[j] {
      if j >= |first| {
        assert second[j - |first|] in second;
      }
    }
  }

  /** Fits the limit; begins with one asset for each page item in order, carrying its facts; and goes
      on with one asset for each live-photo id the items named and did not have, ascending. */
  ghost predicate Complete(libraries: Libraries, maxAssets: nat, seen: seq<AssetResponse>, listed: seq<RemoteAsset>) {
    && |seen| <= |listed| <= maxAssets
    && (forall i :: 0 <= i < |seen| ==> ReadsAs(libraries, seen[i], listed[i]))
    && Ascending(Ids(listed[|seen|..]))
    && forall id :: id in Ids(listed[|seen|..]) <==>
         Names(seen, id) && forall i :: 0 <= i < |seen| ==> seen[i].id != id
  }

  lemma AppendedIsComplete(libraries: Libraries, maxAssets: nat, seen: seq<AssetResponse>, extras: seq<RemoteAsset>,
                           listed: seq<RemoteAsset>)
    requires Appended(libraries, maxAssets, seen, extras, listed)
    ensures Complete(libraries, maxAssets, seen, listed) && extras == listed[|seen|..]
  {
    hide ConvertAsset, AllConvert, ReadsAs, Names;
    var assets := Assets(libraries, seen);
    assert listed[|seen|..] == extras;
    RelatedIdsAreNamed(seen);
    forall i | 0 <= i < |seen| ensures ReadsAs(libraries, seen[i], listed[i]) {
      AssetsAreRead(libraries, seen, i);
    }
    forall id ensures HasId(assets, id) <==> exists i :: 0 <= i < |seen| && seen[i].id == id {
      SeenHasId(libraries, seen, id);
    }
  }

  lemma SeenHasId(libraries: Libraries, seen: seq<AssetResponse>, id: string)
    requires AllConvert(libraries, seen)
    ensures HasId(Assets(libraries, seen), id) <==> exists i :: 0 <= i < |seen| && seen[i].id == id
  {
    hide ConvertAsset, AllConvert;
    var assets := Assets(libraries, seen);
    forall i | 0 <= i < |seen| ensures Ids(assets)[i] == seen[i].id {
      AssetsAreRead(libraries, seen, i);
    }
  }

  /** Against every server a successful listing is complete for the pages the server sent, and what it
      adds to them was fetched under its own id. */
  lemma ListIsComplete(libraries: Libraries, server: Server, origin: string, negotiatedOrigin: string,
                       config: ListConfig, t: nat)
    ensures var run := List(libraries, server, origin, negotiatedOrigin, config, t);
      var seen := Seen(server, t, run.log);
      run.result.Ok? ==>
        && libraries.sha256(origin) == negotiatedOrigin && 1 <= config.pageSize <= 1_000 && config.maxAssets > 0
        && Complete(libraries, config.maxAssets, seen, run.result.value)
        && forall asset :: asset in run.result.value[|seen|..] ==> IsFetched(libraries, server, t, run.log, asset)
  {
    assert List(libraries, server, origin, negotiatedOrigin, config, t).result.Ok? ==>
      libraries.sha256(origin) == negotiatedOrigin && config.Valid();
    hide List, Complete, Appended, Seen, IsFetched;
    var run := List(libraries, server, origin, negotiatedOrigin, config, t);
    var extras := ListIsAppended(libraries, server, origin, negotiatedOrigin, config, t);
    if run.result.Ok? {
      AppendedIsComplete(libraries, config.maxAssets, Seen(server, t, run.log), extras, run.result.value);
    }
  }

  /** A complete listing contains every live-photo id that was seen, and repeats an id only if the
      pages did. */
  lemma CompleteIsClosedAndDistinct(libraries: Libraries, maxAssets: nat, seen: seq<AssetResponse>,
                                    listed: seq<RemoteAsset>)
    requires Complete(libraries, maxAssets, seen, listed)
    ensures forall id :: Names(seen, id) ==> HasId(listed, id)
    ensures (forall i, j :: 0 <= i < j < |seen| ==> seen[i].id != seen[j].id) ==> Distinct(Ids(listed))
  {
    hide Names;
    var paged, extras := listed[..|seen|], listed[|seen|..];
    assert listed == paged + extras;
    IdsCompose(paged, extras);
    assert forall i :: 0 <= i < |seen| ==> ReadsAs(libraries, seen[i], listed[i]) && Ids(paged)[i] == seen[i].id;
    hide ReadsAs;
    forall id | Names(seen, id) ensures HasId(listed, id) {
      assert id in Ids(paged) || id in Ids(extras);
    }
    AscendingIsDistinct(Ids(extras));
    if forall i, j :: 0 <= i < j < |seen| ==> seen[i].id != seen[j].id {
      DistinctPieces(Ids(paged), Ids(extras));
    }
  }

  // ---------------------------------------------------------------- the loops

  /** `list_archive_assets`: the loops compute `List` and cause exactly its events. */
  method ListArchiveAssets(libraries: Libraries, connection: Connection, origin: string, negotiatedOrigin: string,
                           config: ListConfig)
    returns (r: Result<seq<RemoteAsset>, ErrorClass>)
    modifies connection
    ensures var run := List(libraries, connection.server, origin, negotiatedOrigin, config, |old(connection.log)|);
      r == run.result && connection.log == old(connection.log) + run.log
  {
    if libraries.sha256(origin) != negotiatedOrigin {
      return Err(Compatibility);
    }
    if !config.Valid() {
      return Err(Protocol);
    }
    hide ListPages, ListRelated, SortedDistinct;
    ghost var start := connection.log;
    ghost var pages := ListPages(libraries, connection.server, config, |start|, 1, Listing([], []));
    var paged := CollectPages(libraries, connection, config);
    if paged.Err? {
      return Err(paged.error);
    }
    var identifiers := SortedDistinct(paged.value.related);
    ghost var related := ListRelated(libraries, connection.server, config.maxAssets, |start| + |pages.log|, identifiers,
                                     paged.value.assets);
    r := CollectRelated(libraries, connection, config.maxAssets, identifiers, paged.value.assets);
    Associative(start, pages.log, related.log);
  }

  /** The paging loop (lines 97-138). */
  method CollectPages(libraries: Libraries, connection: Connection, config: ListConfig)
    returns (r: Result<Listing, ErrorClass>)
    modifies connection
    ensures var run := ListPages(libraries, connection.server, config, |old(connection.log)|, 1, Listing([], []));
      r == run.result && connection.log == old(connection.log) + run.log
  {
    hide AcceptPage, PageRequest, Resumes;
    ghost var start := connection.log;
    ghost var run := ListPages(libraries, connection.server, config, |start|, 1, Listing([], []));
    ResumesAtStart(start, run);
    var listing, page := Listing([], []), 1;
    while true
      invariant Resumes(start, run, connection.log,
                        ListPages(libraries, connection.server, config, |connection.log|, page, listing))
      decreases config.maxAssets - |listing.assets|
    {
      ghost var log := connection.log;
      ghost var rest := ListPages(libraries, connection.server, config, |log|, page, listing);
      ResumesUntil(start, run, log, rest);
      var cancelled := connection.CheckCancelled();
      if cancelled {
        return Err(Cancelled);
      }
      var request := PageRequest(config, page);
      var answer := connection.Search(request);
      if answer.Err? {
        return Err(answer.error);
      }
      var step := TakePage(libraries, config, page, listing, answer.value);
      if step.Err? {
        return Err(step.error);
      }
      if step.value.Finished? {
        return Ok(step.value.listing);
      }
      AcceptedPagesGrow(libraries, config, page, listing, answer.value);
      listing, page := step.value.listing, step.value.page;
      ResumesAfterTwo(start, run, log, Poll, Searched(request),
                      ListPages(libraries, connection.server, config, |log| + 2, page, listing));
    }
  }

  /** The checks on one page and the loop over its items (lines 112-137). */
  method TakePage(libraries: Libraries, config: ListConfig, page: nat, listing: Listing, response: SearchResponse)
    returns (step: Result<PageStep, ErrorClass>)
    ensures step == AcceptPage(libraries, config, page, listing, response)
  {
    hide ConvertAsset;
    if response.total > config.maxAssets || response.count != |response.items| {
      return Err(Protocol);
    }
    var assets, related := listing.assets, listing.related;
    for i := 0 to |response.items|
      invariant TakeItems(libraries, response.items, config.maxAssets, listing)
             == TakeItems(libraries, response.items[i..], config.maxAssets, Listing(assets, related))
    {
      assert response.items[i..][1..] == response.items[i + 1..];
      if |assets| >= config.maxAssets {
        return Err(Protocol);
      }
      var converted := ConvertAsset(libraries, response.items[i]);
      if converted.Err? {
        return Err(converted.error);
      }
      assets := assets + [converted.value.asset];
      if converted.value.related.Some? {
        related := related + [converted.value.related.value];
      }
    }
    if response.nextPage.None? {
      return Ok(Finished(Listing(assets, related)));
    }
    if response.count == 0 {
      return Err(Protocol);
    }
    var parsed := ParseU64(response.nextPage.value);
    if parsed.None? || parsed.value != SaturatingNext(page) {
      return Err(Protocol);
    }
    return Ok(Continue(Listing(assets, related), parsed.value));
  }

  /** The loop over the related ids (lines 141-157). */
  method CollectRelated(libraries: Libraries, connection: Connection, maxAssets: nat, ids: seq<string>,
                        listed: seq<RemoteAsset>)
    returns (r: Result<seq<RemoteAsset>, ErrorClass>)
    modifies connection
    ensures var run := ListRelated(libraries, connection.server, maxAssets, |old(connection.log)|, ids, listed);
      r == run.result && connection.log == old(connection.log) + run.log
  {
    hide ConvertAsset, HasId, Resumes;
    ghost var start := connection.log;
    ghost var run := ListRelated(libraries, connection.server, maxAssets, |start|, ids, listed);
    ResumesAtStart(start, run);
    var assets := listed;
    assert ids[0..] == ids;
    for i := 0 to |ids|
      invariant Resumes(start, run, connection.log,
                        ListRelated(libraries, connection.server, maxAssets, |connection.log|, ids[i..], assets))
    {
      var identifier := ids[i];
      assert ids[i..][0] == identifier && ids[i..][1..] == ids[i + 1..];
      if HasId(assets, identifier) {
        continue;
      }
      ghost var log := connection.log;
      ResumesUntil(start, run, log, ListRelated(libraries, connection.server, maxAssets, |log|, ids[i..], assets));
      if |assets| >= maxAssets {
        return Err(Protocol);
      }
      var cancelled := connection.CheckCancelled();
      if cancelled {
        return Err(Cancelled);
      }
      var answer := connection.Detail(identifier);
      if answer.Err? {
        return Err(answer.error);
      }
      var converted := ConvertAsset(libraries, answer.value);
      if converted.Err? {
        return Err(converted.error);
      }
      if converted.value.asset.assetId != identifier {
        return Err(Protocol);
      }
      assets := assets + [converted.value.asset];
      ResumesAfterTwo(start, run, log, Poll, Fetched(identifier),
                      ListRelated(libraries, connection.server, maxAssets, |log| + 2, ids[i + 1..], assets));
    }
    ResumesUntil(start, run, connection.log,
                 ListRelated(libraries, connection.server, maxAssets, |connection.log|, ids[|ids|..], assets));
    return Ok(assets);
  }
}

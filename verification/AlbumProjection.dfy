/** The album half of `migration_inventory` in crates/immich-client/src/migration.rs. */
module AlbumProjection {
  import opened MigrationAssets
  import opened MigrationInventory
  import opened Ordering
  import opened Remote
  import opened Sequences
  import opened Text
  import opened Wrappers
  import Listing = ArchiveListing

  const MAX_ALBUM_NAME_BYTES := 4_096

  datatype OwnedAlbum = OwnedAlbum(albumId: string, name: string, assetIds: seq<string>)

  // ---------------------------------------------------------------- validation

  predicate IsLowerHexDigit(c: char) {
    '0' <= c <= '9' || 'a' <= c <= 'f'
  }

  predicate UuidV4(value: string) {
    && |value| == 36
    && value[8] == '-' && value[13] == '-' && value[18] == '-' && value[23] == '-'
    && value[14] == '4'
    && value[19] in {'8', '9', 'a', 'b'}
    && forall i :: 0 <= i < 36 ==> i in {8, 13, 18, 23} || IsLowerHexDigit(value[i])
  }

  predicate ValidAlbumName(name: string) {
    && 0 < |name|
    && Utf8Length(name) <= MAX_ALBUM_NAME_BYTES
    && '\\' !in name
    && forall i :: 0 <= i < |name| ==> !IsControl(name[i])
  }

  // ---------------------------------------------------------------- one album's assets

  datatype IdStep = Finished(ids: seq<string>) | Continue(ids: seq<string>, page: nat)

  function AlbumRequest(config: InventoryConfig, albumId: string, page: nat): SearchRequest {
    SearchRequest(page, config.pageSize, false, Some(albumId), Timeline, None)
  }

  function ItemIds(items: seq<AssetResponse>): (ids: seq<string>)
    ensures |ids| == |items|
    ensures forall i :: 0 <= i < |ids| ==> ids[i] == items[i].id
  {
    seq(|items|, i requires 0 <= i < |items| => items[i].id)
  }

  function TakeIds(items: seq<AssetResponse>, maxMemberships: nat, ids: seq<string>): Result<seq<string>, ErrorClass>
    decreases |items|
  {
    if |items| == 0 then Ok(ids)
    else if |ids| >= maxMemberships || !UuidV4(items[0].id) then Err(Protocol)
    else TakeIds(items[1..], maxMemberships, ids + [items[0].id])
  }

  function AcceptAlbumPage(config: InventoryConfig, page: nat, ids: seq<string>, response: SearchResponse)
    : Result<IdStep, ErrorClass>
  {
    if response.count != |response.items| then Err(Protocol)
    else
      match TakeIds(response.items, config.maxAlbumMemberships, ids)
      case Err(error) => Err(error)
      case Ok(taken) =>
        if response.nextPage.None? then Ok(Finished(taken))
        else if response.count == 0 then Err(Protocol)
        else
          var next := ParseU64(response.nextPage.value);
          if next.None? || next.value != SaturatingNext(page) then Err(Protocol)
          else Ok(Continue(taken, next.value))
  }

  /** A page is taken exactly when all of its ids are well formed and fit. */
  lemma {:induction false} TakeIdsIsAllOrNothing(items: seq<AssetResponse>, maxMemberships: nat, ids: seq<string>)
    requires |ids| <= maxMemberships
    ensures var taken := TakeIds(items, maxMemberships, ids);
      && (taken.Ok? <==> |ids| + |items| <= maxMemberships && forall id :: id in ItemIds(items) ==> UuidV4(id))
      && (taken.Ok? ==> taken.value == ids + ItemIds(items))
    decreases |items|
  {
    hide UuidV4;
    if |items| > 0 {
      assert ItemIds(items) == [items[0].id] + ItemIds(items[1..]);
      if |ids| < maxMemberships {
        TakeIdsIsAllOrNothing(items[1..], maxMemberships, ids + [items[0].id]);
        Associative(ids, [items[0].id], ItemIds(items[1..]));
      }
    }
  }

  /** A page of an album is accepted exactly when its count is right, its ids are well formed and fit, and
      the page it names next, if any, is the next one and this one is not empty. */
  lemma AlbumPageIsAcceptedExactly(config: InventoryConfig, page: nat, ids: seq<string>, response: SearchResponse)
    requires |ids| <= config.maxAlbumMemberships
    ensures var step := AcceptAlbumPage(config, page, ids, response);
      && (step.Ok? <==>
            && response.count == |response.items| && |ids| + |response.items| <= config.maxAlbumMemberships
            && (forall i :: 0 <= i < |response.items| ==> UuidV4(response.items[i].id))
            && (response.nextPage.Some? ==>
                  && |response.items| > 0
                  && ParseU64(response.nextPage.value) == Some(if page < U64_MAX then page + 1 else U64_MAX)))
      && (step.Ok? ==> (step.value.Finished? <==> response.nextPage.None?))
  {
    hide UuidV4;
    TakeIdsIsAllOrNothing(response.items, config.maxAlbumMemberships, ids);
    forall i | 0 <= i < |response.items| ensures response.items[i].id in ItemIds(response.items) {
      assert ItemIds(response.items)[i] == response.items[i].id;
    }
  }

  lemma AcceptedAlbumPagesGrow(config: InventoryConfig, page: nat, ids: seq<string>, response: SearchResponse)
    ensures var step := AcceptAlbumPage(config, page, ids, response);
      step.Ok? && step.value.Continue? ==>
      |ids| < |step.value.ids| <= config.maxAlbumMemberships && step.value.page == SaturatingNext(page)
  {
    if |ids| <= config.maxAlbumMemberships {
      TakeIdsIsAllOrNothing(response.items, config.maxAlbumMemberships, ids);
    }
  }

  function AlbumPages(server: Server, config: InventoryConfig, albumId: string, t: nat, page: nat, ids: seq<string>)
    : Run<seq<string>>
    decreases config.maxAlbumMemberships - |ids|
  {
    if server.cancelled(t) then Run(Err(Cancelled), [Poll])
    else
      var request := AlbumRequest(config, albumId, page);
      var events := [Poll, Searched(request)];
      match server.search(t + 1, request)
      case Err(error) => Run(Err(error), events)
      case Ok(response) =>
        match AcceptAlbumPage(config, page, ids, response)
        case Err(error) => Run(Err(error), events)
        case Ok(Finished(taken)) => Run(Ok(taken), events)
        case Ok(Continue(taken, next)) =>
          AcceptedAlbumPagesGrow(config, page, ids, response);
          After(events, AlbumPages(server, config, albumId, t + 2, next, taken))
  }

  // ---------------------------------------------------------------- all albums

  function SaturatingAdd(a: nat, b: nat): nat {
    if a + b <= U64_MAX then a + b else U64_MAX
  }

  /** `retain`: the ids in the allowed set, in order. */
  function Retained(ids: seq<string>, allowed: set<string>): seq<string> {
    if |ids| == 0 then []
    else (if ids[0] in allowed then [ids[0]] else []) + Retained(ids[1..], allowed)
  }

  function Projected(header: AlbumHeader, fetched: seq<string>, allowed: set<string>): OwnedAlbum {
    OwnedAlbum(header.id, header.name, SortedDistinct(Retained(fetched, allowed)))
  }

  predicate AcceptableHeader(config: InventoryConfig, header: AlbumHeader) {
    UuidV4(header.id) && ValidAlbumName(header.name) && header.assetCount <= config.maxAlbumMemberships
  }

  function Keep(albums: seq<OwnedAlbum>, album: OwnedAlbum): seq<OwnedAlbum> {
    if |album.assetIds| > 0 then albums + [album] else albums
  }

  function ProjectAlbums(server: Server, config: InventoryConfig, allowed: set<string>, t: nat,
                         headers: seq<AlbumHeader>, memberships: nat, albums: seq<OwnedAlbum>)
    : Run<seq<OwnedAlbum>>
    decreases |headers|
  {
    if |headers| == 0 then Run(Ok(albums), [])
    else if server.cancelled(t) then Run(Err(Cancelled), [Poll])
    else if !AcceptableHeader(config, headers[0]) then Run(Err(Protocol), [Poll])
    else
      var pages := AlbumPages(server, config, headers[0].id, t + 1, 1, []);
      var events := [Poll] + pages.log;
      match pages.result
      case Err(error) => Run(Err(error), events)
      case Ok(fetched) =>
        var album := Projected(headers[0], fetched, allowed);
        var total := SaturatingAdd(memberships, |album.assetIds|);
        if total > config.maxAlbumMemberships then Run(Err(Protocol), events)
        else
          After(events, ProjectAlbums(server, config, allowed, t + |events|, headers[1..], total, Keep(albums, album)))
  }

  predicate ByNameThenId(a: OwnedAlbum, b: OwnedAlbum) {
    Less(a.name, b.name) || (a.name == b.name && AtMost(a.albumId, b.albumId))
  }

  function Albums(libraries: Libraries, server: Server, origin: string, negotiatedOrigin: string,
                  config: InventoryConfig, allowed: set<string>, t: nat)
    : Run<seq<OwnedAlbum>>
  {
    if libraries.sha256(origin) != negotiatedOrigin then Run(Err(Protocol), [])
    else if server.cancelled(t) then Run(Err(Cancelled), [Poll])
    else
      var events := [Poll, ListedAlbums];
      match server.albums(t + 1)
      case Err(error) => Run(Err(error), events)
      case Ok(headers) =>
        if |headers| > config.maxAlbums then Run(Err(Protocol), events)
        else
          var projected := ProjectAlbums(server, config, allowed, t + 2, headers, 0, []);
          match projected.result
          case Err(error) => Run(Err(error), events + projected.log)
          case Ok(albums) => Run(Ok(Sort(albums, ByNameThenId)), events + projected.log)
  }

  datatype Inventory = Inventory(assets: seq<MigrationAsset>, albums: seq<OwnedAlbum>)

  function AllowedIds(assets: seq<MigrationAsset>): set<string> {
    set asset | asset in assets :: asset.assetId
  }

  /** The whole of `migration_inventory`. */
  function FullInventory(libraries: Libraries, server: Server, origin: string, negotiatedOrigin: string,
                         config: InventoryConfig, t: nat)
    : Run<Inventory>
  {
    var collected := InventoryAssets(libraries, server, origin, negotiatedOrigin, config, t);
    match collected.result
    case Err(error) => Run(Err(error), collected.log)
    case Ok(assets) =>
      var projected := Albums(libraries, server, origin, negotiatedOrigin, config, AllowedIds(assets),
                              t + |collected.log|);
      var log := collected.log + projected.log;
      match projected.result
      case Err(error) => Run(Err(error), log)
      case Ok(albums) => Run(Ok(Inventory(assets, albums)), log)
  }

  // ---------------------------------------------------------------- every server

  /** The searches of one album are for that album on the timeline, page after page from the given one,
      of the configured size; against every server there is at most one more than the memberships that
      still fit. */
  lemma {:induction false} AlbumPagingIsBounded(server: Server, config: InventoryConfig, albumId: string, t: nat,
                                                page: nat, ids: seq<string>)
    requires |ids| <= config.maxAlbumMemberships
    ensures var asked := Listing.Searches(AlbumPages(server, config, albumId, t, page, ids).log);
      && |asked| <= config.maxAlbumMemberships - |ids| + 1
      && Listing.InOrder(asked, SearchRequest(page, config.pageSize, false, Some(albumId), Timeline, None))
    decreases config.maxAlbumMemberships - |ids|
  {
    hide AcceptAlbumPage, Listing.Searches;
    var request := SearchRequest(page, config.pageSize, false, Some(albumId), Timeline, None);
    Listing.SearchesOfNothing();
    if !server.cancelled(t) {
      Listing.SearchesOfStep(request, []);
      assert [Poll, Searched(request)] + [] == [Poll, Searched(request)];
      var answer := server.search(t + 1, request);
      if answer.Ok? {
        AcceptedAlbumPagesGrow(config, page, ids, answer.value);
        var step := AcceptAlbumPage(config, page, ids, answer.value);
        if step.Ok? && step.value.Continue? {
          var rest := AlbumPages(server, config, albumId, t + 2, step.value.page, step.value.ids);
          AlbumPagingIsBounded(server, config, albumId, t + 2, step.value.page, step.value.ids);
          Listing.SearchesOfStep(request, rest.log);
          assert ([request] + Listing.Searches(rest.log))[1..] == Listing.Searches(rest.log);
        }
      }
    }
  }

  /** The requests page through the album from the first page on. */
  ghost predicate PagesThrough(asked: seq<SearchRequest>, config: InventoryConfig, albumId: string) {
    && |asked| <= config.maxAlbumMemberships + 1
    && forall i :: 0 <= i < |asked| ==>
         asked[i] == SearchRequest(Listing.PageNumber(1, i), config.pageSize, false, Some(albumId), Timeline, None)
  }

  lemma AlbumIsPagedThrough(server: Server, config: InventoryConfig, albumId: string, t: nat)
    ensures PagesThrough(Listing.Searches(AlbumPages(server, config, albumId, t, 1, []).log), config, albumId)
  {
    hide AlbumPages, Listing.InOrder, Listing.Searches;
    var asked := Listing.Searches(AlbumPages(server, config, albumId, t, 1, []).log);
    var first := SearchRequest(1, config.pageSize, false, Some(albumId), Timeline, None);
    AlbumPagingIsBounded(server, config, albumId, t, 1, []);
    forall i | 0 <= i < |asked| ensures asked[i] == first.(page := Listing.PageNumber(1, i)) {
      Listing.InOrderAt(asked, first, i);
    }
  }

  /** The requests are those of the first announced albums in turn, each album paged through by its own id. */
  ghost predicate AsksForEach(asked: seq<seq<SearchRequest>>, config: InventoryConfig, headers: seq<AlbumHeader>) {
    |asked| <= |headers| && forall k :: 0 <= k < |asked| ==> PagesThrough(asked[k], config, headers[k].id)
  }

  lemma AsksForOneMore(first: seq<SearchRequest>, rest: seq<seq<SearchRequest>>, config: InventoryConfig,
                       headers: seq<AlbumHeader>)
    requires |headers| > 0 && PagesThrough(first, config, headers[0].id) && AsksForEach(rest, config, headers[1..])
    ensures AsksForEach([first] + rest, config, headers)
  {
    hide PagesThrough;
  }

  lemma {:induction false} HeadersAreAskedFor(server: Server, config: InventoryConfig, allowed: set<string>, t: nat,
                                              headers: seq<AlbumHeader>, memberships: nat, albums: seq<OwnedAlbum>)
    returns (asked: seq<seq<SearchRequest>>)
    ensures var run := ProjectAlbums(server, config, allowed, t, headers, memberships, albums);
      Listing.Searches(run.log) == Flatten(asked) && AsksForEach(asked, config, headers)
    decreases |headers|
  {
    hide AlbumPages, Projected, AcceptableHeader, Keep, PagesThrough;
    asked := [];
    Listing.SearchesOfNothing();
    if |headers| > 0 && !server.cancelled(t) && AcceptableHeader(config, headers[0]) {
      var pages := AlbumPages(server, config, headers[0].id, t + 1, 1, []);
      var events := [Poll] + pages.log;
      AlbumIsPagedThrough(server, config, headers[0].id, t + 1);
      Listing.SearchesConcat([Poll], pages.log);
      var first := Listing.Searches(pages.log);
      assert [] + first == first;
      asked := [first];
      assert first + [] == first;
      assert Flatten([first]) == first + Flatten([]) by {
        assert [first][1..] == [];
      }
      if pages.result.Ok? {
        var album := Projected(headers[0], pages.result.value, allowed);
        var total := SaturatingAdd(memberships, |album.assetIds|);
        if total <= config.maxAlbumMemberships {
          var rest := HeadersAreAskedFor(server, config, allowed, t + |events|, headers[1..], total, Keep(albums, album));
          asked := [first] + rest;
          assert asked[1..] == rest;
          Listing.SearchesConcat(events, ProjectAlbums(server, config, allowed, t + |events|, headers[1..], total,
                                               Keep(albums, album)).log);
          AsksForOneMore(first, rest, config, headers);
        }
      }
    }
  }

  /** Against every server the album half searches only for the announced albums, one after the other,
      each by its own id from its first page on. */
  lemma AlbumsAreAskedFor(libraries: Libraries, server: Server, origin: string, negotiatedOrigin: string,
                          config: InventoryConfig, allowed: set<string>, t: nat)
    returns (asked: seq<seq<SearchRequest>>)
    ensures var run := Albums(libraries, server, origin, negotiatedOrigin, config, allowed, t);
      && Listing.Searches(run.log) == Flatten(asked)
      && AsksForEach(asked, config, if server.albums(t + 1).Ok? then server.albums(t + 1).value else [])
  {
    hide ProjectAlbums, Sort, PagesThrough;
    asked := [];
    Listing.SearchesOfNothing();
    assert Listing.Searches([Poll, ListedAlbums]) == [] by {
      assert [Poll, ListedAlbums][1..] == [ListedAlbums];
      assert [ListedAlbums][1..] == [];
    }
    var answer := server.albums(t + 1);
    if libraries.sha256(origin) == negotiatedOrigin && !server.cancelled(t) && answer.Ok?
       && |answer.value| <= config.maxAlbums {
      asked := HeadersAreAskedFor(server, config, allowed, t + 2, answer.value, 0, []);
      Listing.SearchesConcat([Poll, ListedAlbums], ProjectAlbums(server, config, allowed, t + 2, answer.value, 0, []).log);
      assert [] + Flatten(asked) == Flatten(asked);
    }
  }

  lemma {:induction false} RetainedMeans(ids: seq<string>, allowed: set<string>)
    ensures forall id :: id in Retained(ids, allowed) <==> id in ids && id in allowed
  {
    if |ids| > 0 {
      RetainedMeans(ids[1..], allowed);
      assert ids == [ids[0]] + ids[1..];
    }
  }

  /** The ids of a projected album are the fetched ids that are allowed, each once, ascending. */
  lemma ProjectedMeans(header: AlbumHeader, fetched: seq<string>, allowed: set<string>)
    ensures var ids := Projected(header, fetched, allowed).assetIds;
      && Ascending(ids)
      && forall id :: id in ids <==> id in fetched && id in allowed
  {
    RetainedMeans(fetched, allowed);
    SortedDistinctIsTheSet(Retained(fetched, allowed));
  }

  /** The non-empty projections, in the order of the headers. */
  function Projections(headers: seq<AlbumHeader>, fetched: seq<seq<string>>, allowed: set<string>): seq<OwnedAlbum>
    requires |headers| == |fetched|
  {
    if |headers| == 0 then []
    else Keep([], Projected(headers[0], fetched[0], allowed)) + Projections(headers[1..], fetched[1..], allowed)
  }

  function Memberships(albums: seq<OwnedAlbum>): nat {
    if |albums| == 0 then 0 else |albums[0].assetIds| + Memberships(albums[1..])
  }

  /** The lists the run's own requests collected: each album is paged through right after the poll that
      follows the album before it. `t` is the number of events before the first of these polls. */
  ghost predicate FetchedAt(server: Server, config: InventoryConfig, t: nat, headers: seq<AlbumHeader>,
                            fetched: seq<seq<string>>)
    decreases |headers|
  {
    if |headers| == 0 || |fetched| == 0 then |headers| == |fetched|
    else
      var pages := AlbumPages(server, config, headers[0].id, t + 1, 1, []);
      && pages.result == Ok(fetched[0])
      && FetchedAt(server, config, t + 1 + |pages.log|, headers[1..], fetched[1..])
  }

  /** A run fetches one list of ids for each album, and no other. */
  lemma {:induction false} FetchedIsDetermined(server: Server, config: InventoryConfig, t: nat, headers: seq<AlbumHeader>,
                                               fetched: seq<seq<string>>, other: seq<seq<string>>)
    requires FetchedAt(server, config, t, headers, fetched) && FetchedAt(server, config, t, headers, other)
    ensures fetched == other
    decreases |headers|
  {
    hide AlbumPages;
    if |headers| > 0 && |fetched| > 0 && |other| > 0 {
      var pages := AlbumPages(server, config, headers[0].id, t + 1, 1, []);
      FetchedIsDetermined(server, config, t + 1 + |pages.log|, headers[1..], fetched[1..], other[1..]);
      assert fetched == [fetched[0]] + fetched[1..] && other == [other[0]] + other[1..];
    }
  }

  lemma KeepAppends(albums: seq<OwnedAlbum>, album: OwnedAlbum, rest: seq<OwnedAlbum>)
    ensures Keep(albums, album) + rest == albums + (Keep([], album) + rest)
    ensures Memberships(Keep([], album) + rest) == |album.assetIds| + Memberships(rest)
  {
    if |album.assetIds| > 0 {
      Associative(albums, [album], rest);
      assert Keep([], album) == [album];
      assert ([album] + rest)[1..] == rest;
    } else {
      assert [] + rest == rest;
    }
  }

  /** On success every header's album was fetched, and what was kept is its projection; the running
      total never passed the limit, so neither does the sum as far as 64 bits can tell. */
  lemma {:induction false} AlbumsAreProjected(server: Server, config: InventoryConfig, allowed: set<string>, t: nat,
                                              headers: seq<AlbumHeader>, memberships: nat, albums: seq<OwnedAlbum>)
    returns (fetched: seq<seq<string>>)
    requires memberships <= config.maxAlbumMemberships && memberships <= U64_MAX
    ensures var run := ProjectAlbums(server, config, allowed, t, headers, memberships, albums);
      run.result.Ok? ==>
        && FetchedAt(server, config, t, headers, fetched) && |headers| == |fetched|
        && run.result.value == albums + Projections(headers, fetched, allowed)
        && SaturatingAdd(memberships, Memberships(Projections(headers, fetched, allowed))) <= config.maxAlbumMemberships
    decreases |headers|
  {
    hide AlbumPages, Projected, AcceptableHeader, Keep;
    fetched := [];
    var run := ProjectAlbums(server, config, allowed, t, headers, memberships, albums);
    if |headers| > 0 && run.result.Ok? {
      var pages := AlbumPages(server, config, headers[0].id, t + 1, 1, []);
      var album := Projected(headers[0], pages.result.value, allowed);
      var total := SaturatingAdd(memberships, |album.assetIds|);
      var later := t + |[Poll] + pages.log|;
      var rest := AlbumsAreProjected(server, config, allowed, later, headers[1..], total, Keep(albums, album));
      fetched := [pages.result.value] + rest;
      assert later == t + 1 + |pages.log|;
      KeepAppends(albums, album, Projections(headers[1..], rest, allowed));
    }
  }

  lemma ItemIdsCompose(first: seq<AssetResponse>, second: seq<AssetResponse>)
    ensures ItemIds(first + second) == ItemIds(first) + ItemIds(second)
  {
  }

  /** Paging through an album returns the id of every item of every page, in order, and all of them
      are well formed. */
  lemma {:induction false} AlbumPagesAreCollected(server: Server, config: InventoryConfig, albumId: string, t: nat,
                                                  page: nat, ids: seq<string>)
    requires |ids| <= config.maxAlbumMemberships
    ensures var run := AlbumPages(server, config, albumId, t, page, ids);
      var seen := ItemIds(Listing.Seen(server, t, run.log));
      run.result.Ok? ==>
        && run.result.value == ids + seen
        && |run.result.value| <= config.maxAlbumMemberships
        && forall id :: id in seen ==> UuidV4(id)
    decreases config.maxAlbumMemberships - |ids|
  {
    hide UuidV4, AcceptAlbumPage, Listing.Seen;
    var run := AlbumPages(server, config, albumId, t, page, ids);
    var request := AlbumRequest(config, albumId, page);
    if run.result.Ok? {
      var response := server.search(t + 1, request).value;
      var step := AcceptAlbumPage(config, page, ids, response).value;
      AcceptedAlbumPageIsTaken(config, page, ids, response);
      if step.Finished? {
        assert [Poll, Searched(request)] == [Poll, Searched(request)] + [];
        Listing.SeenInStep(server, t, Searched(request), []);
        Listing.SeenNothing(server, t + 2);
        assert response.items + [] == response.items;
      } else {
        AcceptedAlbumPagesGrow(config, page, ids, response);
        var rest := AlbumPages(server, config, albumId, t + 2, step.page, step.ids);
        AlbumPagesAreCollected(server, config, albumId, t + 2, step.page, step.ids);
        Listing.SeenInStep(server, t, Searched(request), rest.log);
        var later := Listing.Seen(server, t + 2, rest.log);
        ItemIdsCompose(response.items, later);
        Associative(ids, ItemIds(response.items), ItemIds(later));
      }
    }
  }

  lemma AcceptedAlbumPageIsTaken(config: InventoryConfig, page: nat, ids: seq<string>, response: SearchResponse)
    requires |ids| <= config.maxAlbumMemberships && AcceptAlbumPage(config, page, ids, response).Ok?
    ensures var taken := AcceptAlbumPage(config, page, ids, response).value.ids;
      && taken == ids + ItemIds(response.items) && |taken| <= config.maxAlbumMemberships
      && forall id :: id in ItemIds(response.items) ==> UuidV4(id)
  {
    hide UuidV4;
    TakeIdsIsAllOrNothing(response.items, config.maxAlbumMemberships, ids);
  }

  lemma {:induction false} SeenConcat(server: Server, t: nat, first: seq<Event>, second: seq<Event>)
    ensures Listing.Seen(server, t, first + second)
         == Listing.Seen(server, t, first) + Listing.Seen(server, t + |first|, second)
    decreases |first|
  {
    hide Listing.SeenAt;
    var both := first + second;
    if |first| > 0 {
      assert both[1..] == first[1..] + second;
      SeenConcat(server, t + 1, first[1..], second);
      Associative(Listing.SeenAt(server, t, first[0]), Listing.Seen(server, t + 1, first[1..]),
                  Listing.Seen(server, t + |first|, second));
    } else {
      assert both == second;
    }
  }

  lemma SeenAfterPoll(server: Server, t: nat, rest: seq<Event>)
    ensures Listing.Seen(server, t, [Poll] + rest) == Listing.Seen(server, t + 1, rest)
  {
    assert ([Poll] + rest)[1..] == rest;
    assert [] + Listing.Seen(server, t + 1, rest) == Listing.Seen(server, t + 1, rest);
  }

  /** What a run fetched for its albums is what the pages in its own log held, in order. */
  lemma {:induction false} FetchedIsWhatTheLogShows(server: Server, config: InventoryConfig, allowed: set<string>, t: nat,
                                                    headers: seq<AlbumHeader>, memberships: nat, albums: seq<OwnedAlbum>,
                                                    fetched: seq<seq<string>>)
    requires FetchedAt(server, config, t, headers, fetched)
    requires ProjectAlbums(server, config, allowed, t, headers, memberships, albums).result.Ok?
    ensures var run := ProjectAlbums(server, config, allowed, t, headers, memberships, albums);
      Flatten(fetched) == ItemIds(Listing.Seen(server, t, run.log))
    decreases |headers|
  {
    hide AlbumPages, Projected, AcceptableHeader, Keep, Listing.Seen;
    if |headers| > 0 {
      var pages := AlbumPages(server, config, headers[0].id, t + 1, 1, []);
      var album := Projected(headers[0], pages.result.value, allowed);
      var total := SaturatingAdd(memberships, |album.assetIds|);
      var events := [Poll] + pages.log;
      var rest := ProjectAlbums(server, config, allowed, t + |events|, headers[1..], total, Keep(albums, album));
      FetchedIsWhatTheLogShows(server, config, allowed, t + |events|, headers[1..], total, Keep(albums, album), fetched[1..]);
      AlbumPagesAreCollected(server, config, headers[0].id, t + 1, 1, []);
      SeenConcat(server, t, events, rest.log);
      SeenAfterPoll(server, t, pages.log);
      var first, later := Listing.Seen(server, t + 1, pages.log), Listing.Seen(server, t + |events|, rest.log);
      ItemIdsCompose(first, later);
      assert [] + ItemIds(first) == ItemIds(first);
    } else {
      Listing.SeenNothing(server, t);
    }
  }

  // ---------------------------------------------------------------- the sorted albums

  lemma ByNameThenIdIsOrdered()
    ensures TotalPreorder(ByNameThenId)
  {
    hide Less;
    forall a, b ensures ByNameThenId(a, b) || ByNameThenId(b, a) {
      LessIsTotal(a.name, b.name);
      LessIsTotal(a.albumId, b.albumId);
    }
    forall a, b, c | ByNameThenId(a, b) && ByNameThenId(b, c) ensures ByNameThenId(a, c) {
      if Less(a.name, b.name) && Less(b.name, c.name) {
        LessIsTransitive(a.name, b.name, c.name);
      } else if a.name == b.name && b.name == c.name {
        AtMostIsTransitive(a.albumId, b.albumId, c.albumId);
      }
    }
  }

  lemma {:induction false} InsertAddsMemberships(album: OwnedAlbum, albums: seq<OwnedAlbum>)
    ensures Memberships(Insert(album, albums, ByNameThenId)) == |album.assetIds| + Memberships(albums)
  {
    hide ByNameThenId;
    if |albums| > 0 && !ByNameThenId(album, albums[0]) {
      InsertAddsMemberships(album, albums[1..]);
      assert ([albums[0]] + Insert(album, albums[1..], ByNameThenId))[1..] == Insert(album, albums[1..], ByNameThenId);
    } else {
      assert ([album] + albums)[1..] == albums;
    }
  }

  lemma {:induction false} SortKeepsMemberships(albums: seq<OwnedAlbum>)
    ensures Memberships(Sort(albums, ByNameThenId)) == Memberships(albums)
  {
    if |albums| > 0 {
      SortKeepsMemberships(albums[1..]);
      InsertAddsMemberships(albums[0], Sort(albums[1..], ByNameThenId));
    }
  }

  /** What a successful album phase returns for the given headers and fetched lists. */
  ghost predicate ProjectionOf(albums: seq<OwnedAlbum>, headers: seq<AlbumHeader>, fetched: seq<seq<string>>,
                               allowed: set<string>, maxMemberships: nat)
    requires |headers| == |fetched|
  {
    && multiset(albums) == multiset(Projections(headers, fetched, allowed))
    && SortedBy(albums, ByNameThenId)
    && SaturatingAdd(0, Memberships(albums)) <= maxMemberships
    && (maxMemberships < U64_MAX ==> Memberships(albums) <= maxMemberships)
  }

  lemma SeenBeforeAlbums(server: Server, t: nat, rest: seq<Event>)
    ensures Listing.Seen(server, t, [Poll, ListedAlbums] + rest) == Listing.Seen(server, t + 2, rest)
  {
    Listing.SeenInStep(server, t, ListedAlbums, rest);
    hide Listing.Seen;
    assert [] + Listing.Seen(server, t + 2, rest) == Listing.Seen(server, t + 2, rest);
  }

  /** Against every server: the albums are the non-empty projections, onto the allowed ids, of what this
      run fetched for the announced albums, ordered by name and then id, with at most the allowed number of memberships. Below
      the 64-bit ceiling the saturating counter is the sum itself. */
  lemma AlbumsAreTheProjection(libraries: Libraries, server: Server, origin: string, negotiatedOrigin: string,
                               config: InventoryConfig, allowed: set<string>, t: nat)
    returns (fetched: seq<seq<string>>)
    ensures var run := Albums(libraries, server, origin, negotiatedOrigin, config, allowed, t);
      run.result.Ok? ==>
        && server.albums(t + 1).Ok? && |server.albums(t + 1).value| <= config.maxAlbums
        && |server.albums(t + 1).value| == |fetched|
        && FetchedAt(server, config, t + 2, server.albums(t + 1).value, fetched)
        && Flatten(fetched) == ItemIds(Listing.Seen(server, t, run.log))
        && ProjectionOf(run.result.value, server.albums(t + 1).value, fetched, allowed, config.maxAlbumMemberships)
  {
    hide ProjectAlbums, Projections, FetchedAt, ByNameThenId, Sort;
    fetched := [];
    var run := Albums(libraries, server, origin, negotiatedOrigin, config, allowed, t);
    if run.result.Ok? {
      var headers := server.albums(t + 1).value;
      fetched := AlbumsAreProjected(server, config, allowed, t + 2, headers, 0, []);
      var projections := Projections(headers, fetched, allowed);
      var projected := ProjectAlbums(server, config, allowed, t + 2, headers, 0, []);
      FetchedIsWhatTheLogShows(server, config, allowed, t + 2, headers, 0, [], fetched);
      SeenBeforeAlbums(server, t, projected.log);
      hide Listing.Seen, Flatten;
      assert [] + projections == projections;
      ByNameThenIdIsOrdered();
      SortSorts(projections, ByNameThenId);
      SortKeepsMemberships(projections);
    }
  }

  /** Every album that is kept is some header's, holds at least one id, and holds exactly the fetched
      ids that are allowed, ascending. */
  lemma {:induction false} KeptAlbumsAreExact(headers: seq<AlbumHeader>, fetched: seq<seq<string>>,
                                              allowed: set<string>, album: OwnedAlbum)
    returns (i: nat)
    requires |headers| == |fetched| && album in Projections(headers, fetched, allowed)
    ensures i < |headers| && album.albumId == headers[i].id && album.name == headers[i].name
    ensures |album.assetIds| > 0 && Ascending(album.assetIds)
    ensures forall id :: id in album.assetIds <==> id in fetched[i] && id in allowed
  {
    hide Projected;
    var first := Projected(headers[0], fetched[0], allowed);
    if |first.assetIds| > 0 && album == first {
      i := 0;
      ProjectedMeans(headers[0], fetched[0], allowed);
      ProjectedHeader(headers[0], fetched[0], allowed);
    } else {
      var rest := KeptAlbumsAreExact(headers[1..], fetched[1..], allowed, album);
      i := rest + 1;
    }
  }

  lemma ProjectedHeader(header: AlbumHeader, fetched: seq<string>, allowed: set<string>)
    ensures Projected(header, fetched, allowed).albumId == header.id
    ensures Projected(header, fetched, allowed).name == header.name
  {
  }

  /** Conversely an announced album with an allowed id is kept. */
  lemma {:induction false} AlbumsInScopeAreKept(headers: seq<AlbumHeader>, fetched: seq<seq<string>>,
                                                allowed: set<string>, i: nat, id: string)
    requires |headers| == |fetched| && i < |headers|
    requires id in fetched[i] && id in allowed
    ensures Projected(headers[i], fetched[i], allowed) in Projections(headers, fetched, allowed)
    decreases i
  {
    if i == 0 {
      ProjectedMeans(headers[0], fetched[0], allowed);
      assert id in Projected(headers[0], fetched[0], allowed).assetIds;
    } else {
      hide Projected;
      AlbumsInScopeAreKept(headers[1..], fetched[1..], allowed, i - 1, id);
    }
  }

  // ---------------------------------------------------------------- the loops

  /** `migration_album_assets`. */
  method MigrationAlbumAssets(connection: Connection, config: InventoryConfig, albumId: string)
    returns (r: Result<seq<string>, ErrorClass>)
    modifies connection
    ensures var run := AlbumPages(connection.server, config, albumId, |old(connection.log)|, 1, []);
      r == run.result && connection.log == old(connection.log) + run.log
  {
    hide AcceptAlbumPage, AlbumRequest, Resumes;
    ghost var start := connection.log;
    ghost var run := AlbumPages(connection.server, config, albumId, |start|, 1, []);
    ResumesAtStart(start, run);
    var ids: seq<string>, page := [], 1;
    while true
      invariant Resumes(start, run, connection.log,
                        AlbumPages(connection.server, config, albumId, |connection.log|, page, ids))
      decreases config.maxAlbumMemberships - |ids|
    {
      ghost var log := connection.log;
      ResumesUntil(start, run, log, AlbumPages(connection.server, config, albumId, |log|, page, ids));
      var cancelled := connection.CheckCancelled();
      if cancelled {
        return Err(Cancelled);
      }
      var request := AlbumRequest(config, albumId, page);
      var answer := connection.Search(request);
      if answer.Err? {
        return Err(answer.error);
      }
      var step := TakeAlbumPage(config, page, ids, answer.value);
      if step.Err? {
        return Err(step.error);
      }
      if step.value.Finished? {
        return Ok(step.value.ids);
      }
      AcceptedAlbumPagesGrow(config, page, ids, answer.value);
      ids, page := step.value.ids, step.value.page;
      ResumesAfterTwo(start, run, log, Poll, Searched(request),
                      AlbumPages(connection.server, config, albumId, |log| + 2, page, ids));
    }
  }

  /** The checks on one page and the loop over its items (lines 240-258). */
  method TakeAlbumPage(config: InventoryConfig, page: nat, ids: seq<string>, response: SearchResponse)
    returns (step: Result<IdStep, ErrorClass>)
    ensures step == AcceptAlbumPage(config, page, ids, response)
  {
    hide UuidV4;
    if response.count != |response.items| {
      return Err(Protocol);
    }
    var result := ids;
    for i := 0 to |response.items|
      invariant TakeIds(response.items, config.maxAlbumMemberships, ids)
             == TakeIds(response.items[i..], config.maxAlbumMemberships, result)
    {
      assert response.items[i..][1..] == response.items[i + 1..];
      if |result| >= config.maxAlbumMemberships || !UuidV4(response.items[i].id) {
        return Err(Protocol);
      }
      result := result + [response.items[i].id];
    }
    if response.nextPage.None? {
      return Ok(Finished(result));
    }
    if response.count == 0 {
      return Err(Protocol);
    }
    var next := ParseU64(response.nextPage.value);
    if next.None? || next.value != SaturatingNext(page) {
      return Err(Protocol);
    }
    return Ok(Continue(result, next.value));
  }

  lemma ResumesAfterAlbum<T>(start: seq<Event>, run: Run<T>, log: seq<Event>, pages: seq<Event>, rest: Run<T>)
    requires Resumes(start, run, log, After([Poll] + pages, rest))
    ensures Resumes(start, run, log + [Poll] + pages, rest)
  {
    Associative(log, [Poll] + pages, rest.log);
    Associative(log, [Poll], pages);
  }

  lemma ResumesUntilAlbum<T>(start: seq<Event>, run: Run<T>, log: seq<Event>, pages: seq<Event>, rest: Run<T>)
    requires Resumes(start, run, log, rest) && rest.log == [Poll] + pages
    ensures run.result == rest.result && start + run.log == log + [Poll] + pages
  {
    Associative(log, [Poll], pages);
  }

  /** The loop over the headers (lines 182-205). */
  method CollectAlbums(connection: Connection, config: InventoryConfig, allowed: set<string>, headers: seq<AlbumHeader>)
    returns (r: Result<seq<OwnedAlbum>, ErrorClass>)
    modifies connection
    ensures var run := ProjectAlbums(connection.server, config, allowed, |old(connection.log)|, headers, 0, []);
      r == run.result && connection.log == old(connection.log) + run.log
  {
    hide AlbumPages, Projected, AcceptableHeader, Resumes, Keep;
    ghost var start := connection.log;
    ghost var run := ProjectAlbums(connection.server, config, allowed, |start|, headers, 0, []);
    ResumesAtStart(start, run);
    var memberships: nat, albums: seq<OwnedAlbum> := 0, [];
    assert headers[0..] == headers;
    for i := 0 to |headers|
      invariant Resumes(start, run, connection.log,
                        ProjectAlbums(connection.server, config, allowed, |connection.log|, headers[i..], memberships,
                                      albums))
    {
      var header := headers[i];
      assert headers[i..][0] == header && headers[i..][1..] == headers[i + 1..];
      ghost var log := connection.log;
      ghost var rest := ProjectAlbums(connection.server, config, allowed, |log|, headers[i..], memberships, albums);
      ResumesUntil(start, run, log, rest);
      var cancelled := connection.CheckCancelled();
      if cancelled {
        return Err(Cancelled);
      }
      if !AcceptableHeader(config, header) {
        return Err(Protocol);
      }
      ghost var pages := AlbumPages(connection.server, config, header.id, |log| + 1, 1, []);
      var fetched := MigrationAlbumAssets(connection, config, header.id);
      assert connection.log == log + [Poll] + pages.log;
      if fetched.Err? {
        ResumesUntilAlbum(start, run, log, pages.log, rest);
        return Err(fetched.error);
      }
      var album := Projected(header, fetched.value, allowed);
      memberships := SaturatingAdd(memberships, |album.assetIds|);
      if memberships > config.maxAlbumMemberships {
        ResumesUntilAlbum(start, run, log, pages.log, rest);
        return Err(Protocol);
      }
      albums := Keep(albums, album);
      ResumesAfterAlbum(start, run, log, pages.log,
                        ProjectAlbums(connection.server, config, allowed, |log| + |[Poll] + pages.log|,
                                      headers[i + 1..], memberships, albums));
    }
    ResumesUntil(start, run, connection.log,
                 ProjectAlbums(connection.server, config, allowed, |connection.log|, headers[|headers|..], memberships,
                               albums));
    return Ok(albums);
  }

  /** `migration_albums`. */
  method MigrationAlbums(libraries: Libraries, connection: Connection, origin: string, negotiatedOrigin: string,
                         config: InventoryConfig, allowed: set<string>)
    returns (r: Result<seq<OwnedAlbum>, ErrorClass>)
    modifies connection
    ensures var run := Albums(libraries, connection.server, origin, negotiatedOrigin, config, allowed,
                              |old(connection.log)|);
      r == run.result && connection.log == old(connection.log) + run.log
  {
    hide ProjectAlbums, Sort;
    if libraries.sha256(origin) != negotiatedOrigin {
      return Err(Protocol);
    }
    ghost var start := connection.log;
    var cancelled := connection.CheckCancelled();
    if cancelled {
      return Err(Cancelled);
    }
    var answer := connection.Albums();
    assert connection.log == start + [Poll, ListedAlbums];
    if answer.Err? {
      return Err(answer.error);
    }
    if |answer.value| > config.maxAlbums {
      return Err(Protocol);
    }
    ghost var projected := ProjectAlbums(connection.server, config, allowed, |start| + 2, answer.value, 0, []);
    var albums := CollectAlbums(connection, config, allowed, answer.value);
    Associative(start, [Poll, ListedAlbums], projected.log);
    if albums.Err? {
      return Err(albums.error);
    }
    return Ok(Sort(albums.value, ByNameThenId));
  }

  /** `migration_inventory`. */
  method CollectInventory(libraries: Libraries, connection: Connection, origin: string, negotiatedOrigin: string,
                            config: InventoryConfig)
    returns (r: Result<Inventory, ErrorClass>)
    modifies connection
    ensures var run := FullInventory(libraries, connection.server, origin, negotiatedOrigin, config,
                                     |old(connection.log)|);
      r == run.result && connection.log == old(connection.log) + run.log
  {
    hide InventoryAssets, Albums;
    ghost var start := connection.log;
    ghost var collected := InventoryAssets(libraries, connection.server, origin, negotiatedOrigin, config, |start|);
    var assets := CollectInventoryAssets(libraries, connection, origin, negotiatedOrigin, config);
    if assets.Err? {
      return Err(assets.error);
    }
    var allowed := AllowedIds(assets.value);
    ghost var projected := Albums(libraries, connection.server, origin, negotiatedOrigin, config, allowed,
                                  |start| + |collected.log|);
    var albums := MigrationAlbums(libraries, connection, origin, negotiatedOrigin, config, allowed);
    Associative(start, collected.log, projected.log);
    if albums.Err? {
      return Err(albums.error);
    }
    return Ok(Inventory(assets.value, albums.value));
  }

  /** Against every server: every membership of a successful inventory is one of its own assets, so
      the inventory has no dangling ids. */
  lemma MembershipsAreInScope(libraries: Libraries, server: Server, origin: string, negotiatedOrigin: string,
                              config: InventoryConfig, t: nat, album: OwnedAlbum, id: string)
    requires var run := FullInventory(libraries, server, origin, negotiatedOrigin, config, t);
      run.result.Ok? && album in run.result.value.albums && id in album.assetIds
    ensures id in AssetIds(FullInventory(libraries, server, origin, negotiatedOrigin, config, t).result.value.assets)
  {
    hide InventoryAssets, Albums, Projections, FetchedAt, ByNameThenId;
    var inventory := FullInventory(libraries, server, origin, negotiatedOrigin, config, t).result.value;
    var collected := InventoryAssets(libraries, server, origin, negotiatedOrigin, config, t);
    var later := t + |collected.log|;
    var allowed := AllowedIds(inventory.assets);
    var fetched := AlbumsAreTheProjection(libraries, server, origin, negotiatedOrigin, config, allowed, later);
    var headers := server.albums(later + 1).value;
    SameElements(inventory.albums, Projections(headers, fetched, allowed));
    var i := KeptAlbumsAreExact(headers, fetched, allowed, album);
    var asset :| asset in inventory.assets && asset.assetId == id;
    var j :| 0 <= j < |inventory.assets| && inventory.assets[j] == asset;
    assert AssetIds(inventory.assets)[j] == id;
  }
}

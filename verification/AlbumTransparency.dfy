/** What the albums of an unchanging, honest server are: each album is its own list of ids, restricted
    to the assets of the inventory. */
module AlbumTransparency {
  import opened AlbumProjection
  import opened MigrationAssets
  import opened MigrationInventory
  import opened Ordering
  import opened PagingTransparency
  import opened Remote
  import opened Sequences
  import opened Text
  import opened Wrappers
  import Listing = ArchiveListing

  // ---------------------------------------------------------------- ids and names

  predicate IsHexGroup(group: string, length: nat) {
    |group| == length && forall i :: 0 <= i < length ==> '0' <= group[i] <= '9' || 'a' <= group[i] <= 'f'
  }

  ghost predicate HasGroups(id: string, a: string, b: string, c: string, d: string, e: string) {
    && id == a + "-" + b + "-" + c + "-" + d + "-" + e
    && IsHexGroup(a, 8) && IsHexGroup(b, 4) && IsHexGroup(c, 4) && IsHexGroup(d, 4) && IsHexGroup(e, 12)
    && c[0] == '4' && d[0] in "89ab"
  }

  /** Five groups of lower-case hexadecimal digits, of version 4 and the RFC 9562 variant. */
  ghost predicate IsUuid(id: string) {
    exists a, b, c, d, e :: HasGroups(id, a, b, c, d, e)
  }

  lemma GroupsAreUuid(id: string, a: string, b: string, c: string, d: string, e: string)
    requires HasGroups(id, a, b, c, d, e)
    ensures UuidV4(id)
  {
    assert |id| == 36;
    assert id[..8] == a && id[9..13] == b && id[14..18] == c && id[19..23] == d && id[24..] == e;
    assert id[14] == c[0] && id[19] == d[0];
    forall i | 0 <= i < 36 ensures i in {8, 13, 18, 23} || IsLowerHexDigit(id[i]) {
      if i < 8 {
        assert id[i] == a[i];
      } else if 8 < i < 13 {
        assert id[i] == b[i - 9];
      } else if 13 < i < 18 {
        assert id[i] == c[i - 14];
      } else if 18 < i < 23 {
        assert id[i] == d[i - 19];
      } else if 23 < i {
        assert id[i] == e[i - 24];
      }
    }
  }

  lemma UuidHasGroups(id: string)
    requires UuidV4(id)
    ensures IsUuid(id)
  {
    assert id == id[..8] + "-" + id[9..13] + "-" + id[14..18] + "-" + id[19..23] + "-" + id[24..];
    GroupIsHex(id, 0, 8);
    GroupIsHex(id, 9, 13);
    GroupIsHex(id, 14, 18);
    GroupIsHex(id, 19, 23);
    GroupIsHex(id, 24, 36);
    assert id[0..8] == id[..8] && id[24..36] == id[24..];
    assert HasGroups(id, id[..8], id[9..13], id[14..18], id[19..23], id[24..]);
  }

  lemma GroupIsHex(id: string, from: nat, to: nat)
    requires from <= to <= |id|
    requires forall i :: from <= i < to ==> IsLowerHexDigit(id[i])
    ensures IsHexGroup(id[from..to], to - from)
  {
    forall i | 0 <= i < to - from ensures IsLowerHexDigit(id[from..to][i]) {
      assert id[from..to][i] == id[from + i];
    }
  }

  lemma UuidExactly(id: string)
    ensures UuidV4(id) <==> IsUuid(id)
  {
    hide UuidV4, HasGroups;
    if UuidV4(id) {
      UuidHasGroups(id);
    }
    if a, b, c, d, e :| HasGroups(id, a, b, c, d, e) {
      GroupsAreUuid(id, a, b, c, d, e);
    }
  }

  /** The header's id is well formed, its name neither empty nor too long nor holding a backslash or a
      control character, and its count within the limit. */
  ghost predicate IsAnnounced(config: InventoryConfig, header: AlbumHeader) {
    && IsUuid(header.id)
    && header.name != "" && Utf8Length(header.name) <= 4096
    && (forall c :: c in header.name ==> c != '\\' && c as int >= 32 && !(127 <= c as int <= 159))
    && header.assetCount <= config.maxAlbumMemberships
  }

  lemma NameExactly(name: string)
    ensures ValidAlbumName(name) <==>
            && name != "" && Utf8Length(name) <= 4096
            && forall c :: c in name ==> c != '\\' && c as int >= 32 && !(127 <= c as int <= 159)
  {
    if forall c :: c in name ==> c != '\\' && c as int >= 32 && !(127 <= c as int <= 159) {
      forall i | 0 <= i < |name| ensures !IsControl(name[i]) {
        assert name[i] in name;
      }
    }
    if ValidAlbumName(name) {
      forall c | c in name ensures c != '\\' && !IsControl(c) {
        var i :| 0 <= i < |name| && name[i] == c;
      }
    }
  }

  lemma AnnouncedExactly(config: InventoryConfig, header: AlbumHeader)
    ensures AcceptableHeader(config, header) <==> IsAnnounced(config, header)
  {
    hide UuidV4, IsUuid;
    UuidExactly(header.id);
    NameExactly(header.name);
  }

  lemma {:induction false} ProjectedAreAcceptable(server: Server, config: InventoryConfig, allowed: set<string>, t: nat,
                                                  headers: seq<AlbumHeader>, memberships: nat, albums: seq<OwnedAlbum>)
    requires ProjectAlbums(server, config, allowed, t, headers, memberships, albums).result.Ok?
    ensures forall header :: header in headers ==> AcceptableHeader(config, header)
    decreases |headers|
  {
    hide AlbumPages, Projected, AcceptableHeader, Keep;
    if |headers| > 0 {
      var pages := AlbumPages(server, config, headers[0].id, t + 1, 1, []);
      var album := Projected(headers[0], pages.result.value, allowed);
      ProjectedAreAcceptable(server, config, allowed, t + |[Poll] + pages.log|, headers[1..],
                             SaturatingAdd(memberships, |album.assetIds|), Keep(albums, album));
      assert headers == [headers[0]] + headers[1..];
    }
  }

  /** Against every server the album half succeeds only for its own origin and for announcements that are
      all acceptable. */
  lemma AnnouncementsAreAcceptable(libraries: Libraries, server: Server, origin: string, negotiatedOrigin: string,
                                   config: InventoryConfig, allowed: set<string>, t: nat)
    requires Albums(libraries, server, origin, negotiatedOrigin, config, allowed, t).result.Ok?
    ensures libraries.sha256(origin) == negotiatedOrigin
    ensures server.albums(t + 1).Ok? && |server.albums(t + 1).value| <= config.maxAlbums
    ensures forall header :: header in server.albums(t + 1).value ==> IsAnnounced(config, header)
  {
    hide ProjectAlbums, AcceptableHeader, IsAnnounced, Sort;
    var headers := server.albums(t + 1).value;
    ProjectedAreAcceptable(server, config, allowed, t + 2, headers, 0, []);
    forall header | header in headers ensures IsAnnounced(config, header) {
      AnnouncedExactly(config, header);
    }
  }

  // ---------------------------------------------------------------- one album

  /** The answer to a request for page k + 1 of the album. */
  ghost predicate ServesAlbumPage(server: Server, config: InventoryConfig, albumId: string, pages: seq<seq<string>>,
                                  t: nat, k: nat)
    requires k < |pages|
  {
    var answer := server.search(t, SearchRequest(k + 1, config.pageSize, false, Some(albumId), Timeline, None));
    && answer.Ok?
    && ItemIds(answer.value.items) == pages[k]
    && answer.value.count == |pages[k]|
    && if k == |pages| - 1 then answer.value.nextPage.None?
       else answer.value.nextPage.Some? && ParseU64(answer.value.nextPage.value) == Some(k + 2)
  }

  /** Whenever the server is asked for a page of the album, it answers from the pages. */
  ghost predicate ServesAlbum(server: Server, config: InventoryConfig, albumId: string, pages: seq<seq<string>>) {
    && 1 <= |pages| <= U64_MAX
    && (forall k :: 0 <= k < |pages| - 1 ==> |pages[k]| > 0)
    && forall t, k :: 0 <= k < |pages| ==> ServesAlbumPage(server, config, albumId, pages, t, k)
  }

  ghost predicate AllUuids(ids: seq<string>) {
    forall id :: id in ids ==> UuidV4(id)
  }

  lemma AllUuidsCompose(first: seq<string>, second: seq<string>)
    ensures AllUuids(first + second) <==> AllUuids(first) && AllUuids(second)
  {
    hide UuidV4;
    assert forall id :: id in first + second <==> id in first || id in second;
  }

  lemma AcceptHonestAlbumPage(server: Server, config: InventoryConfig, albumId: string, pages: seq<seq<string>>, t: nat,
                              k: nat, ids: seq<string>)
    requires ServesAlbum(server, config, albumId, pages) && k < |pages| && |ids| <= config.maxAlbumMemberships
    ensures var answer := server.search(t, SearchRequest(k + 1, config.pageSize, false, Some(albumId), Timeline, None));
      && answer.Ok?
      && var step := AcceptAlbumPage(config, k + 1, ids, answer.value);
      && (step.Ok? <==> |ids| + |pages[k]| <= config.maxAlbumMemberships && AllUuids(pages[k]))
      && (step.Ok? ==>
            && step.value.ids == ids + pages[k]
            && (step.value.Finished? <==> k == |pages| - 1)
            && (step.value.Continue? ==> step.value.page == k + 2))
  {
    hide UuidV4;
    assert ServesAlbumPage(server, config, albumId, pages, t, k);
    var request := SearchRequest(k + 1, config.pageSize, false, Some(albumId), Timeline, None);
    TakeIdsIsAllOrNothing(server.search(t, request).value.items, config.maxAlbumMemberships, ids);
  }

  /** From page k + 1 on, the rest of the album is collected exactly when it fits and is well formed. */
  lemma {:induction false} HonestAlbumIsCollected(server: Server, config: InventoryConfig, albumId: string,
                                                  pages: seq<seq<string>>, t: nat, k: nat, ids: seq<string>)
    requires ServesAlbum(server, config, albumId, pages) && forall u :: !server.cancelled(u)
    requires k < |pages| && |ids| <= config.maxAlbumMemberships
    ensures var run := AlbumPages(server, config, albumId, t, k + 1, ids);
      var rest := Flatten(pages[k..]);
      && (run.result.Ok? <==> |ids| + |rest| <= config.maxAlbumMemberships && AllUuids(rest))
      && (run.result.Ok? ==> run.result.value == ids + rest)
    decreases |pages| - k
  {
    hide AcceptAlbumPage, ServesAlbum, AllUuids;
    AcceptHonestAlbumPage(server, config, albumId, pages, t + 1, k, ids);
    var rest, later := Flatten(pages[k..]), Flatten(pages[k + 1..]);
    assert rest == pages[k] + later by {
      assert pages[k..][1..] == pages[k + 1..];
    }
    AllUuidsCompose(pages[k], later);
    var answer := server.search(t + 1, AlbumRequest(config, albumId, k + 1)).value;
    var step := AcceptAlbumPage(config, k + 1, ids, answer);
    if step.Ok? {
      if k + 1 < |pages| {
        HonestAlbumIsCollected(server, config, albumId, pages, t + 2, k + 1, step.value.ids);
        Associative(ids, pages[k], later);
      } else {
        assert later == [] && rest == pages[k];
        assert AllUuids([]) by { NothingIsUuids(); }
      }
    }
  }

  lemma NothingIsUuids()
    ensures AllUuids([])
  {
  }

  // ---------------------------------------------------------------- every album

  /** The header's album: its own ids that are allowed, each once, ascending. */
  ghost predicate IsAlbumOf(album: OwnedAlbum, header: AlbumHeader, ids: seq<string>, allowed: set<string>) {
    && album.albumId == header.id && album.name == header.name
    && Ascending(album.assetIds)
    && forall id :: id in album.assetIds <==> id in ids && id in allowed
  }

  ghost predicate AreAlbumsOf(each: seq<OwnedAlbum>, headers: seq<AlbumHeader>, contents: map<string, seq<seq<string>>>,
                              allowed: set<string>)
  {
    && |each| == |headers|
    && forall i :: 0 <= i < |headers| ==>
         headers[i].id in contents && IsAlbumOf(each[i], headers[i], Flatten(contents[headers[i].id]), allowed)
  }

  /** The server announces the albums and serves each one's pages, and nobody cancels. */
  ghost predicate ServesAlbums(server: Server, config: InventoryConfig, headers: seq<AlbumHeader>,
                               contents: map<string, seq<seq<string>>>)
  {
    && (forall t :: !server.cancelled(t))
    && (forall t :: server.albums(t) == Ok(headers))
    && ServesEach(server, config, headers, contents)
  }

  ghost predicate ServesEach(server: Server, config: InventoryConfig, headers: seq<AlbumHeader>,
                             contents: map<string, seq<seq<string>>>)
  {
    forall i :: 0 <= i < |headers| ==>
      headers[i].id in contents && ServesAlbum(server, config, headers[i].id, contents[headers[i].id])
  }

  /** The header is acceptable, and its album is well formed and fits. */
  ghost predicate IsCollectable(config: InventoryConfig, header: AlbumHeader, contents: map<string, seq<seq<string>>>) {
    && IsAnnounced(config, header) && header.id in contents
    && |Flatten(contents[header.id])| <= config.maxAlbumMemberships
    && forall id :: id in Flatten(contents[header.id]) ==> IsUuid(id)
  }

  predicate HoldsSomething(album: OwnedAlbum) {
    |album.assetIds| > 0
  }

  lemma AlbumIsProjected(album: OwnedAlbum, header: AlbumHeader, ids: seq<string>, allowed: set<string>)
    requires IsAlbumOf(album, header, ids, allowed)
    ensures album == Projected(header, ids, allowed)
  {
    ProjectedMeans(header, ids, allowed);
    ProjectedHeader(header, ids, allowed);
    hide Projected;
    AscendingIsUnique(album.assetIds, Projected(header, ids, allowed).assetIds);
  }

  lemma CollectableExactly(server: Server, config: InventoryConfig, header: AlbumHeader,
                           contents: map<string, seq<seq<string>>>, t: nat)
    requires header.id in contents && ServesAlbum(server, config, header.id, contents[header.id])
    requires forall u :: !server.cancelled(u)
    ensures var run := AlbumPages(server, config, header.id, t, 1, []);
      && (IsCollectable(config, header, contents) <==> AcceptableHeader(config, header) && run.result.Ok?)
      && (run.result.Ok? ==> run.result.value == Flatten(contents[header.id]))
  {
    hide ServesAlbum, UuidV4, IsUuid, IsAnnounced, AcceptableHeader, AlbumPages;
    AnnouncedExactly(config, header);
    var pages := contents[header.id];
    PagesAreSome(server, config, header.id, pages);
    HonestAlbumIsCollected(server, config, header.id, pages, t, 0, []);
    assert pages[0..] == pages;
    assert [] + Flatten(pages) == Flatten(pages);
    forall id ensures UuidV4(id) <==> IsUuid(id) {
      UuidExactly(id);
    }
  }

  lemma PagesAreSome(server: Server, config: InventoryConfig, albumId: string, pages: seq<seq<string>>)
    requires ServesAlbum(server, config, albumId, pages)
    ensures |pages| > 0
  {
  }

  lemma MembershipsCons(album: OwnedAlbum, rest: seq<OwnedAlbum>)
    ensures Memberships([album] + rest) == |album.assetIds| + Memberships(rest)
    ensures Filter([album] + rest, HoldsSomething) == Keep([], album) + Filter(rest, HoldsSomething)
  {
    assert ([album] + rest)[1..] == rest;
  }

  /** The loop over the headers keeps the albums that hold something, and succeeds exactly when every
      album is collectable and they fit together. */
  lemma {:induction false} HonestProjection(server: Server, config: InventoryConfig, allowed: set<string>, t: nat,
                                            headers: seq<AlbumHeader>, contents: map<string, seq<seq<string>>>,
                                            each: seq<OwnedAlbum>, memberships: nat, albums: seq<OwnedAlbum>)
    requires ServesEach(server, config, headers, contents) && forall u :: !server.cancelled(u)
    requires AreAlbumsOf(each, headers, contents, allowed)
    requires memberships <= config.maxAlbumMemberships && memberships <= U64_MAX
    ensures var run := ProjectAlbums(server, config, allowed, t, headers, memberships, albums);
      && (run.result.Ok? <==>
            && (forall header :: header in headers ==> IsCollectable(config, header, contents))
            && SaturatingAdd(memberships, Memberships(each)) <= config.maxAlbumMemberships)
      && (run.result.Ok? ==> run.result.value == albums + Filter(each, HoldsSomething))
    decreases |headers|
  {
    hide AlbumPages, Projected, AcceptableHeader, Keep, IsCollectable, ServesAlbum, IsAlbumOf, Memberships, Filter;
    if |headers| == 0 {
      assert each == [];
      NothingIsKept();
      assert albums + [] == albums;
    } else {
      var header := headers[0];
      assert headers == [header] + headers[1..] && each == [each[0]] + each[1..];
      assert ServesAlbum(server, config, header.id, contents[header.id]);
      AlbumIsProjected(each[0], header, Flatten(contents[header.id]), allowed);
      CollectableExactly(server, config, header, contents, t + 1);
      MembershipsCons(each[0], each[1..]);
      var pages := AlbumPages(server, config, header.id, t + 1, 1, []);
      if IsCollectable(config, header, contents) {
        var total := SaturatingAdd(memberships, |each[0].assetIds|);
        if total <= config.maxAlbumMemberships {
          HonestProjection(server, config, allowed, t + |[Poll] + pages.log|, headers[1..], contents, each[1..], total,
                           Keep(albums, each[0]));
          KeepAppends(albums, each[0], Filter(each[1..], HoldsSomething));
        }
      }
    }
  }

  lemma NothingIsKept()
    ensures Memberships([]) == 0 && Filter([], HoldsSomething) == []
  {
  }

  /** By name, and by id where names agree. */
  ghost predicate SortedByName(albums: seq<OwnedAlbum>) {
    forall i, j :: 0 <= i < j < |albums| ==>
      Less(albums[i].name, albums[j].name)
      || (albums[i].name == albums[j].name && !Less(albums[j].albumId, albums[i].albumId))
  }

  /** The albums that hold something, by name. */
  ghost predicate AreKept(albums: seq<OwnedAlbum>, each: seq<OwnedAlbum>) {
    && multiset(albums) == multiset(Filter(each, (album: OwnedAlbum) => |album.assetIds| > 0))
    && SortedByName(albums)
  }

  /** What an honest server must announce for the album half to succeed. */
  ghost predicate AlbumsFit(config: InventoryConfig, headers: seq<AlbumHeader>, contents: map<string, seq<seq<string>>>,
                            each: seq<OwnedAlbum>)
  {
    && |headers| <= config.maxAlbums
    && (forall header :: header in headers ==> IsCollectable(config, header, contents))
    && (Memberships(each) <= config.maxAlbumMemberships || U64_MAX <= config.maxAlbumMemberships)
  }

  lemma {:induction false} SameFilter(each: seq<OwnedAlbum>)
    ensures Filter(each, HoldsSomething) == Filter(each, (album: OwnedAlbum) => |album.assetIds| > 0)
  {
    if |each| > 0 {
      SameFilter(each[1..]);
    }
  }

  lemma KeptAreSorted(kept: seq<OwnedAlbum>)
    ensures multiset(Sort(kept, ByNameThenId)) == multiset(kept) && SortedByName(Sort(kept, ByNameThenId))
  {
    hide Sort, Less;
    ByNameThenIdIsOrdered();
    SortSorts(kept, ByNameThenId);
    var albums := Sort(kept, ByNameThenId);
    forall i, j | 0 <= i < j < |albums|
      ensures Less(albums[i].name, albums[j].name)
              || (albums[i].name == albums[j].name && !Less(albums[j].albumId, albums[i].albumId))
    {
      assert ByNameThenId(albums[i], albums[j]);
      AtMostIsNotAbove(albums[i].albumId, albums[j].albumId);
    }
  }

  lemma AtMostIsNotAbove(a: string, b: string)
    ensures AtMost(a, b) <==> !Less(b, a)
  {
  }

  /** An honest server's albums: each announced album is its own list restricted to the allowed ids, and
      those that hold something come back by name. It succeeds exactly when every announced album is
      well formed and fits, and all of them fit together. */
  lemma HonestAlbums(libraries: Libraries, server: Server, origin: string, negotiatedOrigin: string,
                     config: InventoryConfig, allowed: set<string>, headers: seq<AlbumHeader>,
                     contents: map<string, seq<seq<string>>>, each: seq<OwnedAlbum>, t: nat)
    requires libraries.sha256(origin) == negotiatedOrigin
    requires ServesAlbums(server, config, headers, contents) && AreAlbumsOf(each, headers, contents, allowed)
    ensures var run := Albums(libraries, server, origin, negotiatedOrigin, config, allowed, t);
      && (run.result.Ok? <==> AlbumsFit(config, headers, contents, each))
      && (run.result.Ok? ==> AreKept(run.result.value, each))
  {
    hide ProjectAlbums, ServesEach, AreAlbumsOf, IsCollectable, Memberships, Sort, Filter, SortedByName;
    var projected := ProjectAlbums(server, config, allowed, t + 2, headers, 0, []);
    HonestProjection(server, config, allowed, t + 2, headers, contents, each, 0, []);
    var kept := Filter(each, HoldsSomething);
    assert [] + kept == kept;
    SameFilter(each);
    KeptAreSorted(kept);
    assert server.albums(t + 1) == Ok(headers);
  }

  // ---------------------------------------------------------------- the whole inventory

  lemma InventoryIds(libraries: Libraries, responses: map<string, AssetResponse>, closure: seq<string>,
                     assets: seq<MigrationAsset>)
    requires |assets| == |closure|
    requires forall id :: id in closure ==> CanMigrate(libraries, responses, id)
    requires forall i :: 0 <= i < |closure| ==>
               closure[i] in responses && IsMigrated(libraries, responses[closure[i]], assets[i])
    ensures AllowedIds(assets) == set id | id in closure
  {
    hide Migratable;
    forall i | 0 <= i < |closure| ensures assets[i].assetId == closure[i] {
      assert CanMigrate(libraries, responses, closure[i]);
    }
    hide IsMigrated, CanMigrate;
    forall id | id in closure ensures id in AllowedIds(assets) {
      var i :| 0 <= i < |closure| && closure[i] == id;
      assert assets[i] in assets;
    }
    forall id | id in AllowedIds(assets) ensures id in closure {
      var asset :| asset in assets && asset.assetId == id;
      var i :| 0 <= i < |assets| && assets[i] == asset;
      assert closure[i] in closure;
    }
  }

  /** An honest server's whole inventory: the assets of the closure of its timeline, each carrying its
      response's facts, and every announced album restricted to that closure. */
  lemma HonestFullInventory(libraries: Libraries, server: Server, origin: string, negotiatedOrigin: string,
                            config: InventoryConfig, responses: map<string, AssetResponse>, pages: seq<seq<string>>,
                            closure: seq<string>, headers: seq<AlbumHeader>, contents: map<string, seq<seq<string>>>,
                            each: seq<OwnedAlbum>, t: nat)
    requires Serves(server, Listing.ListConfig(Timeline, false, config.pageSize, config.maxAssets), responses, pages)
    requires ServesAlbums(server, config, headers, contents)
    requires IsUsable(config) && libraries.sha256(origin) == negotiatedOrigin
    requires Distinct(Flatten(pages)) && IsClosure(responses, Flatten(pages), closure)
    requires AreAlbumsOf(each, headers, contents, set id | id in closure)
    ensures var run := FullInventory(libraries, server, origin, negotiatedOrigin, config, t);
      && (run.result.Ok? <==>
            && |closure| <= config.maxAssets
            && (forall id :: id in closure ==> CanMigrate(libraries, responses, id))
            && AlbumsFit(config, headers, contents, each))
      && (run.result.Ok? ==>
            && |run.result.value.assets| == |closure|
            && (forall i :: 0 <= i < |closure| ==>
                  closure[i] in responses && IsMigrated(libraries, responses[closure[i]], run.result.value.assets[i]))
            && AreKept(run.result.value.albums, each))
  {
    hide InventoryAssets, Albums, Serves, ServesAlbums, IsClosure, AreAlbumsOf, AlbumsFit, AreKept, CanMigrate,
         IsMigrated, Distinct, AllowedIds;
    HonestInventory(libraries, server, origin, negotiatedOrigin, config, responses, pages, closure, t);
    var collected := InventoryAssets(libraries, server, origin, negotiatedOrigin, config, t);
    if collected.result.Ok? {
      InventoryIds(libraries, responses, closure, collected.result.value);
      HonestAlbums(libraries, server, origin, negotiatedOrigin, config, (set id | id in closure), headers, contents,
                   each, t + |collected.log|);
    }
  }

  // ---------------------------------------------------------------- such servers exist

  ghost predicate WellFormedAlbum(pages: seq<seq<string>>) {
    1 <= |pages| <= U64_MAX && forall k :: 0 <= k < |pages| - 1 ==> |pages[k]| > 0
  }

  function Bare(ids: seq<string>): (items: seq<AssetResponse>)
    ensures ItemIds(items) == ids
  {
    seq(|ids|, i requires 0 <= i < |ids| => AssetResponse(ids[i], "", "", AssetType.Image, None, None, None, None))
  }

  ghost function AlbumPageResponse(pages: seq<seq<string>>, k: nat): SearchResponse
    requires k < |pages|
  {
    SearchResponse(Bare(pages[k]), |pages[k]|, if k == |pages| - 1 then None else Some(Decimal(k + 2)), 0)
  }

  /** A server for a split of the timeline and of every album into pages. */
  ghost function Account(responses: map<string, AssetResponse>, pages: seq<seq<string>>, headers: seq<AlbumHeader>,
                         contents: map<string, seq<seq<string>>>): Server
    requires forall k :: 0 <= k < |pages| ==> KnownIds(responses, pages[k])
  {
    Server(
      (t: nat) => false,
      (t: nat, request: SearchRequest) =>
        if request.albumId.None? && 1 <= request.page <= |pages| then
          Ok(PageResponse(responses, pages, request.page - 1))
        else if request.albumId.Some? && request.albumId.value in contents
             && 1 <= request.page <= |contents[request.albumId.value]| then
          Ok(AlbumPageResponse(contents[request.albumId.value], request.page - 1))
        else Err(Protocol),
      (t: nat, id: string) => if id in responses then Ok(responses[id]) else Err(Protocol),
      (t: nat) => Ok(headers))
  }

  ghost predicate AnswersAlbumPage(server: Server, config: InventoryConfig, albumId: string, pages: seq<seq<string>>,
                                   t: nat, k: nat)
    requires k < |pages|
  {
    server.search(t, SearchRequest(k + 1, config.pageSize, false, Some(albumId), Timeline, None))
      == Ok(AlbumPageResponse(pages, k))
  }

  ghost predicate AnswersPage(server: Server, config: Listing.ListConfig, responses: map<string, AssetResponse>,
                              pages: seq<seq<string>>, t: nat, k: nat)
    requires k < |pages| && KnownIds(responses, pages[k])
  {
    server.search(t, SearchRequest(k + 1, config.pageSize, true, None, config.visibility,
                                   if config.includeTrashed then Some(true) else None))
      == Ok(PageResponse(responses, pages, k))
  }

  lemma AlbumIsServed(server: Server, config: InventoryConfig, albumId: string, pages: seq<seq<string>>)
    requires WellFormedAlbum(pages)
    requires forall t: nat, k: nat :: k < |pages| ==> AnswersAlbumPage(server, config, albumId, pages, t, k)
    ensures ServesAlbum(server, config, albumId, pages)
  {
    hide Bare, Decimal, ParseU64, ItemIds;
    forall t: nat, k: nat | k < |pages| ensures ServesAlbumPage(server, config, albumId, pages, t, k) {
      assert AnswersAlbumPage(server, config, albumId, pages, t, k);
      if k < |pages| - 1 {
        DecimalParses(k + 2);
      }
    }
  }

  lemma TimelineIsServed(server: Server, config: Listing.ListConfig, responses: map<string, AssetResponse>,
                         pages: seq<seq<string>>)
    requires WellFormedPages(responses, pages)
    requires forall k :: 0 <= k < |pages| ==> KnownIds(responses, pages[k])
    requires ServesDetails(server, responses) && forall t :: !server.cancelled(t)
    requires forall t: nat, k: nat :: k < |pages| ==> AnswersPage(server, config, responses, pages, t, k)
    ensures Serves(server, config, responses, pages)
  {
    hide KnownIds, Flatten, Items, Decimal, ParseU64, ServesDetails;
    forall t: nat, k: nat | k < |pages| ensures ServesPage(server, config, responses, pages, t, k) {
      assert AnswersPage(server, config, responses, pages, t, k);
      if k < |pages| - 1 {
        DecimalParses(k + 2);
      }
    }
  }

  /** For every well-formed split of a timeline and of the announced albums there is a server that serves
      them. */
  lemma EveryAccountIsServed(config: InventoryConfig, responses: map<string, AssetResponse>, pages: seq<seq<string>>,
                             headers: seq<AlbumHeader>, contents: map<string, seq<seq<string>>>)
    returns (server: Server)
    requires WellFormedPages(responses, pages)
    requires forall header :: header in headers ==> header.id in contents && WellFormedAlbum(contents[header.id])
    ensures Serves(server, Listing.ListConfig(Timeline, false, config.pageSize, config.maxAssets), responses, pages)
    ensures ServesAlbums(server, config, headers, contents)
  {
    forall k | 0 <= k < |pages| ensures KnownIds(responses, pages[k]) {
      PagesAreKnown(responses, pages, k);
    }
    hide KnownIds, PageResponse, AlbumPageResponse, WellFormedPages, WellFormedAlbum, Serves, ServesAlbum;
    server := Account(responses, pages, headers, contents);
    TimelineIsServed(server, Listing.ListConfig(Timeline, false, config.pageSize, config.maxAssets), responses, pages);
    forall i | 0 <= i < |headers|
      ensures headers[i].id in contents && ServesAlbum(server, config, headers[i].id, contents[headers[i].id])
    {
      assert headers[i] in headers;
      assert forall t: nat, k: nat :: k < |contents[headers[i].id]| ==>
               AnswersAlbumPage(server, config, headers[i].id, contents[headers[i].id], t, k);
      AlbumIsServed(server, config, headers[i].id, contents[headers[i].id]);
    }
  }
}

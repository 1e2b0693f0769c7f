/** `plan_archive` of crates/immich-application/src/archive.rs, up to the manifest. */
module ArchivePlan {
  import opened ArchiveListing
  import opened Ordering
  import opened Remote
  import opened Sequences
  import opened Wrappers

  datatype Selection = OnlyTimeline | OnlyArchive | OnlyHidden | All

  datatype PlanConfig = PlanConfig(selection: Selection, includeTrashed: bool, pageSize: nat, maxAssets: nat)

  function Visibilities(selection: Selection): seq<Visibility> {
    match selection
    case OnlyTimeline => [Timeline]
    case OnlyArchive => [Archive]
    case OnlyHidden => [Hidden]
    case All => [Timeline, Archive, Hidden]
  }

  function BudgetedConfig(config: PlanConfig, visibility: Visibility, remaining: nat): ListConfig {
    ListConfig(visibility, config.includeTrashed, config.pageSize, remaining)
  }

  /** One listing per visibility, each within what the earlier ones left of the budget. */
  function ListAll(libraries: Libraries, server: Server, origin: string, negotiatedOrigin: string, config: PlanConfig,
                   t: nat, visibilities: seq<Visibility>, assets: seq<RemoteAsset>)
    : Run<seq<RemoteAsset>>
    decreases |visibilities|
  {
    if |visibilities| == 0 then Run(Ok(assets), [])
    else if |assets| >= config.maxAssets then Run(Err(InvalidRequest), [])
    else
      var listing := List(libraries, server, origin, negotiatedOrigin,
                          BudgetedConfig(config, visibilities[0], config.maxAssets - |assets|), t);
      match listing.result
      case Err(error) => Run(Err(error), listing.log)
      case Ok(selected) =>
        After(listing.log, ListAll(libraries, server, origin, negotiatedOrigin, config, t + |listing.log|,
                                   visibilities[1..], assets + selected))
  }

  /** No two entries carry the same id and different facts. */
  ghost predicate Consistent(assets: seq<RemoteAsset>) {
    forall a, b :: a in assets && b in assets && a.assetId == b.assetId ==> a == b
  }

  /** Each of the assets once, ascending by id. */
  ghost predicate EachOnceById(unique: seq<RemoteAsset>, assets: seq<RemoteAsset>) {
    && Ascending(Ids(unique))
    && forall asset :: asset in unique <==> asset in assets
  }

  lemma EachOnceByIdIsUnique(a: seq<RemoteAsset>, b: seq<RemoteAsset>, assets: seq<RemoteAsset>)
    requires Consistent(assets) && EachOnceById(a, assets) && EachOnceById(b, assets)
    ensures a == b
  {
    IdsDetermine(a, b);
    IdsDetermine(b, a);
    AscendingIsUnique(Ids(a), Ids(b));
    forall i | 0 <= i < |a| ensures a[i] == b[i] {
      assert a[i] in assets && b[i] in assets;
      assert a[i].assetId == Ids(a)[i] == Ids(b)[i] == b[i].assetId;
    }
  }

  lemma IdsDetermine(a: seq<RemoteAsset>, b: seq<RemoteAsset>)
    requires forall asset :: asset in a ==> asset in b
    ensures forall id :: id in Ids(a) ==> id in Ids(b)
  {
    forall id | id in Ids(a) ensures id in Ids(b) {
      var i :| 0 <= i < |a| && Ids(a)[i] == id;
      assert a[i] in b;
      var j :| 0 <= j < |b| && b[j] == a[i];
      assert Ids(b)[j] == id;
    }
  }

  /** The listed total never exceeds the budget, whatever the visibilities return. */
  lemma {:induction false} ListedTotalIsBounded(libraries: Libraries, server: Server, origin: string,
                                                negotiatedOrigin: string, config: PlanConfig, t: nat,
                                                visibilities: seq<Visibility>, assets: seq<RemoteAsset>)
    requires |assets| <= config.maxAssets
    ensures var run := ListAll(libraries, server, origin, negotiatedOrigin, config, t, visibilities, assets);
      run.result.Ok? ==> |run.result.value| <= config.maxAssets && assets <= run.result.value
    decreases |visibilities|
  {
    hide List;
    var run := ListAll(libraries, server, origin, negotiatedOrigin, config, t, visibilities, assets);
    if |visibilities| > 0 && run.result.Ok? {
      var budgeted := BudgetedConfig(config, visibilities[0], config.maxAssets - |assets|);
      var listing := List(libraries, server, origin, negotiatedOrigin, budgeted, t);
      ListIsComplete(libraries, server, origin, negotiatedOrigin, budgeted, t);
      ListedTotalIsBounded(libraries, server, origin, negotiatedOrigin, config, t + |listing.log|, visibilities[1..],
                           assets + listing.result.value);
    }
  }

  /** The requests page through one visibility from its first page on. */
  ghost predicate PagesThrough(asked: seq<SearchRequest>, config: PlanConfig, visibility: Visibility) {
    forall i :: 0 <= i < |asked| ==>
      asked[i] == SearchRequest(PageNumber(1, i), config.pageSize, true, None, visibility,
                                if config.includeTrashed then Some(true) else None)
  }

  /** The requests page through the first of the visibilities in turn. */
  ghost predicate AsksForEach(asked: seq<seq<SearchRequest>>, config: PlanConfig, visibilities: seq<Visibility>) {
    |asked| <= |visibilities| && forall k :: 0 <= k < |asked| ==> PagesThrough(asked[k], config, visibilities[k])
  }

  lemma AsksForOneMore(first: seq<SearchRequest>, rest: seq<seq<SearchRequest>>, config: PlanConfig,
                       visibilities: seq<Visibility>)
    requires |visibilities| > 0 && PagesThrough(first, config, visibilities[0])
    requires AsksForEach(rest, config, visibilities[1..])
    ensures AsksForEach([first] + rest, config, visibilities)
    ensures Flatten([first] + rest) == first + Flatten(rest)
  {
    hide PagesThrough;
    assert ([first] + rest)[1..] == rest;
  }

  lemma {:induction false} VisibilitiesAreAskedFor(libraries: Libraries, server: Server, origin: string,
                                                   negotiatedOrigin: string, config: PlanConfig, t: nat,
                                                   visibilities: seq<Visibility>, assets: seq<RemoteAsset>)
    returns (asked: seq<seq<SearchRequest>>)
    ensures Searches(ListAll(libraries, server, origin, negotiatedOrigin, config, t, visibilities, assets).log)
         == Flatten(asked)
    ensures AsksForEach(asked, config, visibilities)
    decreases |visibilities|
  {
    hide List;
    SearchesOfNothing();
    asked := [];
    if |visibilities| > 0 && |assets| < config.maxAssets {
      var budgeted := BudgetedConfig(config, visibilities[0], config.maxAssets - |assets|);
      var listing := List(libraries, server, origin, negotiatedOrigin, budgeted, t);
      var first := Searches(listing.log);
      ListAsksInOrder(libraries, server, origin, negotiatedOrigin, budgeted, t);
      var rest: seq<seq<SearchRequest>> := [];
      if listing.result.Ok? {
        rest := VisibilitiesAreAskedFor(libraries, server, origin, negotiatedOrigin, config, t + |listing.log|,
                                        visibilities[1..], assets + listing.result.value);
        SearchesConcat(listing.log, ListAll(libraries, server, origin, negotiatedOrigin, config, t + |listing.log|,
                                            visibilities[1..], assets + listing.result.value).log);
      }
      AsksForOneMore(first, rest, config, visibilities);
      assert first + [] == first;
      asked := [first] + rest;
    }
  }

  /** Against every server a plan pages through the timeline, the archive or the hidden assets, or through
      all three in this order, and asks for nothing else. */
  lemma PlanAsksForTheSelection(libraries: Libraries, server: Server, origin: string, negotiatedOrigin: string,
                                config: PlanConfig, t: nat)
    returns (asked: seq<seq<SearchRequest>>)
    ensures var run := ListAll(libraries, server, origin, negotiatedOrigin, config, t, Visibilities(config.selection), []);
      && Searches(run.log) == Flatten(asked)
      && AsksForEach(asked, config,
                     if config.selection.OnlyTimeline? then [Timeline]
                     else if config.selection.OnlyArchive? then [Archive]
                     else if config.selection.OnlyHidden? then [Hidden]
                     else [Timeline, Archive, Hidden])
  {
    asked := VisibilitiesAreAskedFor(libraries, server, origin, negotiatedOrigin, config, t,
                                     Visibilities(config.selection), []);
  }

  /** `BTreeMap::into_values`: the values in the order of their keys. */
  method IntoValues(entries: map<string, RemoteAsset>) returns (values: seq<RemoteAsset>)
    requires forall id :: id in entries ==> entries[id].assetId == id
    ensures Ascending(Ids(values))
    ensures forall asset: RemoteAsset :: asset in values <==> asset.assetId in entries && entries[asset.assetId] == asset
  {
    var sorted := SortedKeys(entries);
    assert forall i :: 0 <= i < |sorted| ==> sorted[i] in entries;
    values := seq(|sorted|, i requires 0 <= i < |sorted| => entries[sorted[i]]);
    assert Ids(values) == sorted;
    forall asset: RemoteAsset | asset.assetId in entries && entries[asset.assetId] == asset ensures asset in values {
      var i :| 0 <= i < |sorted| && sorted[i] == asset.assetId;
      assert values[i] == asset;
    }
  }

  /** The conflict-checking loop (lines 54-64): it fails exactly when two entries share an id but
      differ, and otherwise passes each asset on once, ascending by id. */
  method Deduplicate(assets: seq<RemoteAsset>) returns (r: Result<seq<RemoteAsset>, ErrorClass>)
    ensures r.Ok? <==> Consistent(assets)
    ensures r.Ok? ==> EachOnceById(r.value, assets)
    ensures r.Err? ==> r.error == Invariant
  {
    var unique: map<string, RemoteAsset> := map[];
    for i := 0 to |assets|
      invariant forall id :: id in unique ==> unique[id].assetId == id && unique[id] in assets[..i]
      invariant forall asset :: asset in assets[..i] ==> asset.assetId in unique && unique[asset.assetId] == asset
    {
      var asset := assets[i];
      assert assets[..i + 1] == assets[..i] + [asset];
      if asset.assetId in unique && unique[asset.assetId] != asset {
        assert unique[asset.assetId] in assets && asset in assets;
        return Err(Invariant);
      }
      unique := unique[asset.assetId := asset];
    }
    assert assets[..|assets|] == assets;
    var values := IntoValues(unique);
    return Ok(values);
  }

  /** `plan_archive`: lists the selected visibilities within one budget, then deduplicates. */
  method PlanArchive(libraries: Libraries, connection: Connection, origin: string, negotiatedOrigin: string,
                     config: PlanConfig)
    returns (r: Result<seq<RemoteAsset>, ErrorClass>)
    modifies connection
    ensures var run := ListAll(libraries, connection.server, origin, negotiatedOrigin, config, |old(connection.log)|,
                               Visibilities(config.selection), []);
      && connection.log == old(connection.log) + run.log
      && (run.result.Err? ==> r == Err(run.result.error))
      && (run.result.Ok? ==>
            && |run.result.value| <= config.maxAssets
            && (r.Ok? <==> Consistent(run.result.value))
            && (r.Ok? ==> EachOnceById(r.value, run.result.value))
            && (r.Err? ==> r.error == Invariant))
  {
    hide List, Resumes, Consistent, EachOnceById;
    ghost var start := connection.log;
    var visibilities := Visibilities(config.selection);
    ghost var run := ListAll(libraries, connection.server, origin, negotiatedOrigin, config, |start|, visibilities, []);
    ListedTotalIsBounded(libraries, connection.server, origin, negotiatedOrigin, config, |start|, visibilities, []);
    ResumesAtStart(start, run);
    var assets: seq<RemoteAsset> := [];
    assert visibilities[0..] == visibilities;
    for i := 0 to |visibilities|
      invariant Resumes(start, run, connection.log,
                        ListAll(libraries, connection.server, origin, negotiatedOrigin, config, |connection.log|,
                                visibilities[i..], assets))
    {
      ghost var log := connection.log;
      assert visibilities[i..][0] == visibilities[i] && visibilities[i..][1..] == visibilities[i + 1..];
      ghost var rest := ListAll(libraries, connection.server, origin, negotiatedOrigin, config, |log|,
                                visibilities[i..], assets);
      ResumesUntil(start, run, log, rest);
      var remaining := if config.maxAssets > |assets| then config.maxAssets - |assets| else 0;
      if remaining == 0 {
        return Err(InvalidRequest);
      }
      var budgeted := BudgetedConfig(config, visibilities[i], remaining);
      ghost var listing := List(libraries, connection.server, origin, negotiatedOrigin, budgeted, |log|);
      var selected := ListArchiveAssets(libraries, connection, origin, negotiatedOrigin, budgeted);
      if selected.Err? {
        ResumesWith(start, run, log, rest);
        return Err(selected.error);
      }
      assets := assets + selected.value;
      ResumesAfterListing(start, run, log, listing.log,
                          ListAll(libraries, connection.server, origin, negotiatedOrigin, config,
                                  |log| + |listing.log|, visibilities[i + 1..], assets));
    }
    ResumesUntil(start, run, connection.log,
                 ListAll(libraries, connection.server, origin, negotiatedOrigin, config, |connection.log|,
                         visibilities[|visibilities|..], assets));
    r := Deduplicate(assets);
  }

  lemma ResumesWith<T>(start: seq<Event>, run: Run<T>, log: seq<Event>, rest: Run<T>)
    requires Resumes(start, run, log, rest)
    ensures run.result == rest.result && start + run.log == log + rest.log
  {
  }

  lemma ResumesAfterListing<T>(start: seq<Event>, run: Run<T>, log: seq<Event>, events: seq<Event>, rest: Run<T>)
    requires Resumes(start, run, log, After(events, rest))
    ensures Resumes(start, run, log + events, rest)
  {
    Associative(log, events, rest.log);
  }
}

/** What an oracle run reports and accepts, stated over the recorded fields. */
module OracleReport {
  import opened Json
  import opened OracleObservation
  import opened Ordering
  import opened Sequences

  // ---------------------------------------------------------------- commits and mutations

  predicate SameDigest(a: Recorded, b: Recorded) {
    a.httpMethod == b.httpMethod && a.path == b.path && a.bodySha256 == b.bodySha256
  }

  predicate SameRequest(a: Recorded, b: Recorded) {
    SameDigest(a, b) && a.query == b.query
  }

  ghost predicate CommitBodiesAgree(committed: seq<Recorded>) {
    forall a, b :: a in committed && b in committed && SameDigest(a, b) ==> a.jsonBody == b.jsonBody
  }

  ghost predicate MutationBodiesAgree(requests: seq<Recorded>) {
    forall a, b :: a in requests && b in requests && a.mutating && b.mutating && SameRequest(a, b) ==>
      a.jsonBody == b.jsonBody
  }

  lemma CommitKeyExactly(a: Recorded, b: Recorded)
    ensures CommitKey(a) == CommitKey(b) <==> SameDigest(a, b)
  {
    if CommitKey(a) == CommitKey(b) {
      assert CommitKey(a)[0] == a.httpMethod && CommitKey(a)[1] == a.path && CommitKey(a)[2] == a.bodySha256;
      assert CommitKey(b)[0] == b.httpMethod && CommitKey(b)[1] == b.path && CommitKey(b)[2] == b.bodySha256;
    }
  }

  lemma RequestKeyExactly(a: Recorded, b: Recorded)
    ensures RequestKey(a) == RequestKey(b) <==> SameRequest(a, b)
  {
    if RequestKey(a) == RequestKey(b) {
      assert RequestKey(a)[0] == a.httpMethod && RequestKey(a)[1] == a.path;
      assert RequestKey(a)[2] == a.query && RequestKey(a)[3] == a.bodySha256;
      assert RequestKey(b)[0] == b.httpMethod && RequestKey(b)[1] == b.path;
      assert RequestKey(b)[2] == b.query && RequestKey(b)[3] == b.bodySha256;
    }
  }

  lemma CommitTiesExactly(committed: seq<Recorded>)
    ensures DigestsFixBodies(committed) <==> CommitBodiesAgree(committed)
  {
    hide CommitKey, SameDigest;
    forall a, b ensures CommitKey(a) == CommitKey(b) <==> SameDigest(a, b) {
      CommitKeyExactly(a, b);
    }
  }

  lemma MutationTiesExactly(requests: seq<Recorded>)
    ensures TiesAgree(Filter(requests, IsMutating), RequestKey, CommitOf) <==> MutationBodiesAgree(requests)
  {
    hide RequestKey, SameRequest, Filter;
    forall a, b ensures RequestKey(a) == RequestKey(b) <==> SameRequest(a, b) {
      RequestKeyExactly(a, b);
    }
    FilterMeans(requests, IsMutating);
    if MutationBodiesAgree(requests) {
      forall a, b | a in Filter(requests, IsMutating) && b in Filter(requests, IsMutating) && RequestKey(a) == RequestKey(b)
        ensures CommitOf(a) == CommitOf(b)
      {
        SameRequestSamePlace(a, b);
      }
    }
    if TiesAgree(Filter(requests, IsMutating), RequestKey, CommitOf) {
      forall a, b | a in requests && b in requests && a.mutating && b.mutating && SameRequest(a, b)
        ensures a.jsonBody == b.jsonBody
      {
        assert CommitOf(a) == CommitOf(b);
      }
    }
  }

  lemma SameRequestSamePlace(a: Recorded, b: Recorded)
    requires SameRequest(a, b)
    ensures a.httpMethod == b.httpMethod && a.path == b.path
  {
  }

  /** Neither the report nor the verdict depends on the order of requests and commits exactly when mutating
      requests with the same method, path, query and digest, and commits with the same method, path and
      digest, have the same parsed body. */
  lemma OutcomeIsOrderFreeExactlyWhenBodiesAgree(codec: Codec, requests: seq<Recorded>, committed: seq<Recorded>)
    ensures OutcomeIsOrderFree(codec, requests, committed) <==>
            MutationBodiesAgree(requests) && CommitBodiesAgree(committed)
  {
    hide OutcomeIsOrderFree, TiesAgree, DigestsFixBodies, MutationBodiesAgree, CommitBodiesAgree;
    OutcomeIsOrderFreeExactlyWhenTiesAgree(codec, requests, committed);
    CommitTiesExactly(committed);
    MutationTiesExactly(requests);
  }

  /** The entries are the requests' own, in the given order. */
  ghost predicate AreCommitsOf(commits: seq<Commit>, order: seq<Recorded>) {
    && |commits| == |order|
    && forall i :: 0 <= i < |order| ==> commits[i] == Commit(order[i].httpMethod, order[i].path, order[i].jsonBody)
  }

  /** The requests that agree with one in method, path and digest, as they are listed. */
  function LikeCommit(s: seq<Recorded>, one: Recorded): seq<Recorded> {
    Filter(s, (r: Recorded) => SameDigest(r, one))
  }

  /** The requests that agree with one in method, path, query and digest, as they are listed. */
  function LikeRequest(s: seq<Recorded>, one: Recorded): seq<Recorded> {
    Filter(s, (r: Recorded) => SameRequest(r, one))
  }

  predicate CommitAtMost(a: Recorded, b: Recorded) {
    KeyAtMost([a.httpMethod, a.path, a.bodySha256], [b.httpMethod, b.path, b.bodySha256])
  }

  predicate RequestAtMost(a: Recorded, b: Recorded) {
    KeyAtMost([a.httpMethod, a.path, a.query, a.bodySha256], [b.httpMethod, b.path, b.query, b.bodySha256])
  }

  /** Rearranged by method, path and digest, with equal ones in the order they came in. */
  ghost predicate ByDigest(order: seq<Recorded>, given: seq<Recorded>) {
    && multiset(order) == multiset(given)
    && (forall i, j :: 0 <= i < j < |order| ==> CommitAtMost(order[i], order[j]))
    && forall one :: LikeCommit(order, one) == LikeCommit(given, one)
  }

  /** Rearranged by method, path, query and digest, with equal ones in the order they came in. */
  ghost predicate ByRequest(order: seq<Recorded>, given: seq<Recorded>) {
    && multiset(order) == multiset(given)
    && (forall i, j :: 0 <= i < j < |order| ==> RequestAtMost(order[i], order[j]))
    && forall one :: LikeRequest(order, one) == LikeRequest(given, one)
  }

  lemma {:induction false} FiltersAgree<T>(s: seq<T>, keep: T -> bool, keep': T -> bool)
    requires forall x :: x in s ==> keep(x) == keep'(x)
    ensures Filter(s, keep) == Filter(s, keep')
  {
    if |s| > 0 {
      FiltersAgree(s[1..], keep, keep');
    }
  }

  lemma {:induction false} LikeCommitExactly(s: seq<Recorded>, one: Recorded)
    ensures LikeCommit(s, one) == Class(s, CommitKey, CommitKey(one))
  {
    if |s| > 0 {
      CommitKeyExactly(s[0], one);
      hide CommitKey, SameDigest;
      LikeCommitExactly(s[1..], one);
    }
  }

  lemma {:induction false} LikeRequestExactly(s: seq<Recorded>, one: Recorded)
    ensures LikeRequest(s, one) == Class(s, RequestKey, RequestKey(one))
  {
    if |s| > 0 {
      RequestKeyExactly(s[0], one);
      hide RequestKey, SameRequest;
      LikeRequestExactly(s[1..], one);
    }
  }

  lemma ComparesExactly(a: Recorded, b: Recorded)
    ensures ByKey(CommitKey)(a, b) <==> CommitAtMost(a, b)
    ensures ByKey(RequestKey)(a, b) <==> RequestAtMost(a, b)
  {
    hide KeyAtMost;
    assert ByKey(CommitKey)(a, b) == KeyAtMost(CommitKey(a), CommitKey(b));
    assert ByKey(RequestKey)(a, b) == KeyAtMost(RequestKey(a), RequestKey(b));
    assert CommitKey(a) == [a.httpMethod, a.path, a.bodySha256] && CommitKey(b) == [b.httpMethod, b.path, b.bodySha256];
  }

  lemma SortedByDigest(committed: seq<Recorded>)
    ensures ByDigest(Sort(committed, ByKey(CommitKey)), committed)
  {
    hide CommitKey, CommitAtMost, KeyAtMost, Sort;
    var order := Sort(committed, ByKey(CommitKey));
    ByKeyIsOrdered(CommitKey);
    SortSorts(committed, ByKey(CommitKey));
    forall i, j | 0 <= i < j < |order| ensures CommitAtMost(order[i], order[j]) {
      assert ByKey(CommitKey)(order[i], order[j]);
      ComparesExactly(order[i], order[j]);
    }
    hide ByKey;
    forall one ensures LikeCommit(order, one) == LikeCommit(committed, one) {
      SortIsStable(committed, CommitKey, CommitKey(one));
      LikeCommitExactly(order, one);
      LikeCommitExactly(committed, one);
    }
  }

  lemma SortedByRequest(requests: seq<Recorded>)
    ensures ByRequest(Sort(requests, ByKey(RequestKey)), requests)
  {
    hide RequestKey, RequestAtMost, KeyAtMost, Sort;
    var order := Sort(requests, ByKey(RequestKey));
    ByKeyIsOrdered(RequestKey);
    SortSorts(requests, ByKey(RequestKey));
    forall i, j | 0 <= i < j < |order| ensures RequestAtMost(order[i], order[j]) {
      assert ByKey(RequestKey)(order[i], order[j]);
      ComparesExactly(order[i], order[j]);
    }
    hide ByKey;
    forall one ensures LikeRequest(order, one) == LikeRequest(requests, one) {
      SortIsStable(requests, RequestKey, RequestKey(one));
      LikeRequestExactly(order, one);
      LikeRequestExactly(requests, one);
    }
  }

  /** The reported commits are all commits, by method, path and digest. */
  lemma CommitsMean(committed: seq<Recorded>) returns (order: seq<Recorded>)
    ensures AreCommitsOf(Commits(committed), order) && ByDigest(order, committed)
  {
    hide ByDigest, Sort;
    order := Sort(committed, ByKey(CommitKey));
    SortedByDigest(committed);
  }

  /** The compared mutations are the mutating requests, by method, path, query and digest. */
  lemma MutationsMean(requests: seq<Recorded>) returns (order: seq<Recorded>)
    ensures AreCommitsOf(Mutations(requests), order)
    ensures ByRequest(order, Filter(requests, (r: Recorded) => r.mutating))
  {
    hide ByRequest, Sort, Mutations;
    MutationsAreANormalForm(requests);
    FiltersAgree(requests, IsMutating, (r: Recorded) => r.mutating);
    var mutations := Filter(requests, IsMutating);
    order := Sort(mutations, ByKey(RequestKey));
    SortedByRequest(mutations);
  }

  // ---------------------------------------------------------------- the verdict

  function At(commits: seq<Commit>, httpMethod: string, path: string): seq<Commit> {
    Filter(commits, (commit: Commit) => commit.httpMethod == httpMethod && commit.path == path)
  }

  lemma PlaceExactly(commit: Commit, place: seq<string>)
    ensures CommitPlace(commit) == place <==> |place| == 2 && commit.httpMethod == place[0] && commit.path == place[1]
  {
    if CommitPlace(commit) == place {
      assert CommitPlace(commit)[0] == commit.httpMethod && CommitPlace(commit)[1] == commit.path;
    }
  }

  lemma {:induction false} ClassIsAt(commits: seq<Commit>, place: seq<string>)
    ensures Class(commits, CommitPlace, place) == if |place| == 2 then At(commits, place[0], place[1]) else []
  {
    if |commits| > 0 {
      PlaceExactly(commits[0], place);
      hide CommitPlace;
      ClassIsAt(commits[1..], place);
    }
  }

  /** A run is accepted exactly when, for every method and path, the expectation lists what the mutating
      requests did there, in their order. */
  lemma AcceptedExactlyPlaceByPlace(requests: seq<Recorded>, expected: seq<Commit>)
    ensures Accepted(requests, expected) <==>
            forall httpMethod, path :: At(expected, httpMethod, path) == At(Mutations(requests), httpMethod, path)
  {
    hide Accepted, Mutations, NormalForm, Class, At, Filter;
    AcceptedExactlyWhenEachPlaceMatches(requests, expected);
    MutationsAreANormalForm(requests);
    var actual := Mutations(requests);
    forall place ensures Class(expected, CommitPlace, place) == (if |place| == 2 then At(expected, place[0], place[1]) else [])
                 && Class(actual, CommitPlace, place) == (if |place| == 2 then At(actual, place[0], place[1]) else [])
    {
      ClassIsAt(expected, place);
      ClassIsAt(actual, place);
    }
    if Accepted(requests, expected) {
      forall httpMethod, path ensures At(expected, httpMethod, path) == At(actual, httpMethod, path) {
        var place := [httpMethod, path];
        assert Class(expected, CommitPlace, place) == Class(actual, CommitPlace, place);
      }
    }
  }

  // ---------------------------------------------------------------- the report

  predicate HasFields(request: Recorded, fields: Fields) {
    && request.httpMethod == fields.httpMethod && request.path == fields.path && request.query == fields.query
    && request.bodySha256 == fields.bodySha256 && request.jsonBody == fields.jsonBody
    && request.mutating == fields.mutating
  }

  lemma FieldsExactly(request: Recorded, fields: Fields)
    ensures FieldsOf(request) == fields <==> HasFields(request, fields)
  {
  }

  lemma {:induction false} CountsExactly(requests: seq<Recorded>, fields: Fields)
    ensures |Filter(requests, (request: Recorded) => FieldsOf(request) == fields)|
         == |Filter(requests, (request: Recorded) => HasFields(request, fields))|
  {
    if |requests| > 0 {
      FieldsExactly(requests[0], fields);
      hide FieldsOf, HasFields;
      CountsExactly(requests[1..], fields);
    }
  }

  /** One group for each combination of the six fields among the requests, by its text, with the number of
      requests that have it. */
  ghost predicate AreGroupsOf(codec: Codec, groups: seq<Group>, requests: seq<Recorded>) {
    && (forall i, j :: 0 <= i < j < |groups| ==> Less(codec.dumps(groups[i].fields), codec.dumps(groups[j].fields)))
    && (forall group :: group in groups ==>
          && group.count == |Filter(requests, (request: Recorded) => HasFields(request, group.fields))|
          && group.count > 0)
    && forall request :: request in requests ==> exists group :: group in groups && HasFields(request, group.fields)
  }

  lemma GroupAt(codec: Codec, requests: seq<Recorded>, i: nat)
    requires Faithful(codec) && i < |Groups(codec, requests)|
    ensures |Keys(codec, requests)| == |Groups(codec, requests)|
    ensures codec.dumps(Groups(codec, requests)[i].fields) == Keys(codec, requests)[i]
    ensures Groups(codec, requests)[i].count
         == |Filter(requests, (request: Recorded) => HasFields(request, Groups(codec, requests)[i].fields))|
    ensures Groups(codec, requests)[i].count > 0
  {
    KeysMean(codec, requests);
    GroupsByKeys(codec, requests);
    var groups, keys := Groups(codec, requests), Keys(codec, requests);
    GroupsAreDistinct(codec, requests);
    CountsExactly(requests, groups[i].fields);
    assert keys[i] in keys;
    KeysOccur(codec, requests, keys[i]);
  }

  lemma KeysOccur(codec: Codec, requests: seq<Recorded>, key: string)
    requires key in Keys(codec, requests)
    ensures Occurrences(codec, requests, key) > 0
  {
    OccurringKeys(codec, requests, key);
    SortedDistinctIsTheSet(Map(requests, (request: Recorded) => GroupKey(codec, request)));
  }

  lemma GroupsMean(codec: Codec, requests: seq<Recorded>)
    requires Faithful(codec)
    ensures AreGroupsOf(codec, Groups(codec, requests), requests)
  {
    hide Groups, Keys, GroupKey, HasFields, Less;
    var groups, keys := Groups(codec, requests), Keys(codec, requests);
    KeysMean(codec, requests);
    GroupsByKeys(codec, requests);
    forall i, j | 0 <= i < j < |groups| ensures Less(codec.dumps(groups[i].fields), codec.dumps(groups[j].fields)) {
      GroupAt(codec, requests, i);
      GroupAt(codec, requests, j);
    }
    forall group | group in groups
      ensures group.count == |Filter(requests, (request: Recorded) => HasFields(request, group.fields))|
      ensures group.count > 0
    {
      var i :| 0 <= i < |groups| && groups[i] == group;
      GroupAt(codec, requests, i);
    }
    forall request | request in requests ensures exists group :: group in groups && HasFields(request, group.fields) {
      var i :| 0 <= i < |keys| && keys[i] == GroupKey(codec, request);
      GroupAt(codec, requests, i);
      SameTextSameFields(codec, request, groups[i].fields);
      assert groups[i] in groups;
    }
  }

  lemma SameTextSameFields(codec: Codec, request: Recorded, fields: Fields)
    requires Faithful(codec) && codec.dumps(fields) == GroupKey(codec, request)
    ensures HasFields(request, fields)
  {
    assert codec.loads(codec.dumps(FieldsOf(request))) == FieldsOf(request);
    assert codec.loads(codec.dumps(fields)) == fields;
  }

  /** What a run reports: whether all requests were authenticated, the groups, the commits by method, path
      and digest, and how many requests were mutating. */
  lemma ReportMeans(codec: Codec, requests: seq<Recorded>, committed: seq<Recorded>)
    returns (order: seq<Recorded>)
    requires Faithful(codec)
    ensures var report := Observe(codec, requests, committed);
      && (report.allAuthenticated <==> forall request :: request in requests ==> request.authenticated)
      && AreGroupsOf(codec, report.groups, requests)
      && AreCommitsOf(report.committed, order) && ByDigest(order, committed)
      && report.mutationRequests == |Filter(requests, (request: Recorded) => request.mutating)|
  {
    hide Groups, Commits, AreGroupsOf, AreCommitsOf, ByDigest, Sort, Filter;
    order := CommitsMean(committed);
    var sorted := Sort(requests, ByKey(RequestKey));
    SortPermutes(requests, ByKey(RequestKey));
    SameElements(sorted, requests);
    GroupsDoNotDependOnOrder(codec, sorted, requests);
    GroupsMean(codec, requests);
    FilterPermutes(sorted, requests, IsMutating);
    FiltersAgree(requests, IsMutating, (request: Recorded) => request.mutating);
  }
}

/** The normalization of an oracle run's requests in scripts/run-oracle.py. */
module OracleObservation {
  import opened Json
  import opened Ordering
  import opened Sequences
  import opened Wrappers

  /** One request as the mock server records it. */
  datatype Recorded = Recorded(
    httpMethod: string,
    path: string,
    query: string,
    bodySha256: string,
    jsonBody: Json,
    mutating: bool,
    authenticated: bool)

  /** The fields that make up a group key. */
  datatype Fields = Fields(
    httpMethod: string,
    path: string,
    query: string,
    bodySha256: string,
    jsonBody: Json,
    mutating: bool)

  datatype Group = Group(fields: Fields, count: nat)

  datatype Commit = Commit(httpMethod: string, path: string, jsonBody: Json)

  /** `json.dumps` with sorted keys, and `json.loads`. */
  datatype Codec = Codec(dumps: Fields -> string, loads: string -> Fields)

  ghost predicate Faithful(codec: Codec) {
    forall fields :: codec.loads(codec.dumps(fields)) == fields
  }

  function FieldsOf(request: Recorded): Fields {
    Fields(request.httpMethod, request.path, request.query, request.bodySha256, request.jsonBody, request.mutating)
  }

  function CommitOf(request: Recorded): Commit {
    Commit(request.httpMethod, request.path, request.jsonBody)
  }

  function RequestKey(request: Recorded): seq<string> {
    [request.httpMethod, request.path, request.query, request.bodySha256]
  }

  function CommitKey(request: Recorded): seq<string> {
    [request.httpMethod, request.path, request.bodySha256]
  }

  // ---------------------------------------------------------------- sorting by a key

  function ByKey<T>(key: T -> seq<string>): (T, T) -> bool {
    (a, b) => KeyAtMost(key(a), key(b))
  }

  /** Sort by a key, then keep a part of each element. */
  function NormalForm<T, S>(s: seq<T>, key: T -> seq<string>, shape: T -> S): seq<S> {
    Map(Sort(s, ByKey(key)), shape)
  }

  /** Elements the sort cannot tell apart look the same afterwards. */
  ghost predicate TiesAgree<T, S>(s: seq<T>, key: T -> seq<string>, shape: T -> S) {
    forall a, b :: a in s && b in s && key(a) == key(b) ==> shape(a) == shape(b)
  }

  lemma ByKeyIsOrdered<T(!new)>(key: T -> seq<string>)
    ensures TotalPreorder(ByKey(key))
  {
    var atMost := ByKey(key);
    forall a, b ensures atMost(a, b) || atMost(b, a) {
      KeyAtMostIsTotal(key(a), key(b));
    }
    forall a, b, c | atMost(a, b) && atMost(b, c) ensures atMost(a, c) {
      KeyAtMostIsTransitive(key(a), key(b), key(c));
    }
  }

  /** The sort keeps the order of elements with the same key. */
  lemma {:induction false} InsertIsStable<T>(x: T, s: seq<T>, key: T -> seq<string>, class_: seq<string>)
    ensures Filter(Insert(x, s, ByKey(key)), (y: T) => key(y) == class_)
         == (if key(x) == class_ then [x] else []) + Filter(s, (y: T) => key(y) == class_)
  {
    var atMost := ByKey(key);
    var keep := (y: T) => key(y) == class_;
    if |s| == 0 || atMost(x, s[0]) {
      assert ([x] + s)[1..] == s;
    } else {
      InsertIsStable(x, s[1..], key, class_);
      assert ([s[0]] + Insert(x, s[1..], atMost))[1..] == Insert(x, s[1..], atMost);
      KeyAtMostIsTotal(key(x), key(s[0]));
      assert key(x) != key(s[0]);
      assert Filter(s, keep) == (if keep(s[0]) then [s[0]] else []) + Filter(s[1..], keep);
    }
  }

  lemma {:induction false} SortIsStable<T>(s: seq<T>, key: T -> seq<string>, class_: seq<string>)
    ensures Filter(Sort(s, ByKey(key)), (y: T) => key(y) == class_) == Filter(s, (y: T) => key(y) == class_)
  {
    if |s| > 0 {
      SortIsStable(s[1..], key, class_);
      InsertIsStable(s[0], Sort(s[1..], ByKey(key)), key, class_);
    }
  }

  /** The keys of the sorted list are the sorted keys. */
  lemma {:induction false} SortSortsKeys<T>(s: seq<T>, key: T -> seq<string>)
    ensures Map(Sort(s, ByKey(key)), key) == Sort(Map(s, key), KeyAtMost)
  {
    if |s| > 0 {
      SortSortsKeys(s[1..], key);
      InsertInsertsKey(s[0], Sort(s[1..], ByKey(key)), key);
      assert Map(s, key)[1..] == Map(s[1..], key);
    }
  }

  lemma {:induction false} InsertInsertsKey<T>(x: T, s: seq<T>, key: T -> seq<string>)
    ensures Map(Insert(x, s, ByKey(key)), key) == Insert(key(x), Map(s, key), KeyAtMost)
  {
    if |s| > 0 && !KeyAtMost(key(x), key(s[0])) {
      InsertInsertsKey(x, s[1..], key);
      assert Map(s, key)[1..] == Map(s[1..], key);
      assert Map([s[0]] + Insert(x, s[1..], ByKey(key)), key)
          == [key(s[0])] + Map(Insert(x, s[1..], ByKey(key)), key);
    } else {
      assert Map([x] + s, key) == [key(x)] + Map(s, key);
    }
  }

  lemma KeysPermute<T(!new)>(a: seq<T>, b: seq<T>, key: T -> seq<string>)
    requires multiset(a) == multiset(b)
    ensures Map(Sort(a, ByKey(key)), key) == Map(Sort(b, ByKey(key)), key)
  {
    SortSortsKeys(a, key);
    SortSortsKeys(b, key);
    MapPermutes(a, b, key);
    KeysAreOrdered();
    SortSorts(Map(a, key), KeyAtMost);
    SortSorts(Map(b, key), KeyAtMost);
    SortedIsUnique(Sort(Map(a, key), KeyAtMost), Sort(Map(b, key), KeyAtMost), KeyAtMost);
  }

  lemma KeysAreOrdered()
    ensures TotalPreorder(KeyAtMost)
    ensures forall a, b :: KeyAtMost(a, b) && KeyAtMost(b, a) ==> a == b
  {
    forall a, b ensures KeyAtMost(a, b) || KeyAtMost(b, a) {
      KeyAtMostIsTotal(a, b);
    }
    forall a, b, c | KeyAtMost(a, b) && KeyAtMost(b, c) ensures KeyAtMost(a, c) {
      KeyAtMostIsTransitive(a, b, c);
    }
    forall a, b | KeyAtMost(a, b) && KeyAtMost(b, a) ensures a == b {
      KeyAtMostIsTotal(a, b);
    }
  }

  lemma AgreeingTiesSuffice<T(!new), S>(a: seq<T>, b: seq<T>, key: T -> seq<string>, shape: T -> S)
    requires multiset(a) == multiset(b) && TiesAgree(a, key, shape)
    ensures NormalForm(a, key, shape) == NormalForm(b, key, shape)
  {
    var sorted, sorted' := Sort(a, ByKey(key)), Sort(b, ByKey(key));
    KeysPermute(a, b, key);
    SameLength(a, b);
    SortPermutes(a, ByKey(key));
    SortPermutes(b, ByKey(key));
    SameElements(sorted, a);
    SameElements(sorted', a);
    forall i | 0 <= i < |sorted| ensures shape(sorted[i]) == shape(sorted'[i]) {
      assert key(sorted[i]) == Map(sorted, key)[i] == Map(sorted', key)[i] == key(sorted'[i]);
      assert sorted[i] in a && sorted'[i] in a;
    }
  }

  lemma {:induction false} FirstOfClass<T>(s: seq<T>, key: T -> seq<string>, class_: seq<string>) returns (i: nat)
    requires |Filter(s, (y: T) => key(y) == class_)| > 0
    ensures i < |s| && key(s[i]) == class_ && Filter(s, (y: T) => key(y) == class_)[0] == s[i]
    ensures forall j :: 0 <= j < i ==> key(s[j]) != class_
  {
    if key(s[0]) == class_ {
      i := 0;
    } else {
      var rest := FirstOfClass(s[1..], key, class_);
      i := rest + 1;
    }
  }

  /** Two elements the sort cannot tell apart come out in the order they came in. */
  lemma FrontElementLeadsItsClass<T(!new)>(x: T, rest: seq<T>, key: T -> seq<string>) returns (i: nat)
    ensures var sorted := Sort([x] + rest, ByKey(key));
      && i < |sorted| && sorted[i] == x
      && forall j :: 0 <= j < i ==> key(sorted[j]) != key(x)
  {
    var s := [x] + rest;
    SortIsStable(s, key, key(x));
    assert s[1..] == rest;
    assert Filter(s, (y: T) => key(y) == key(x))[0] == x;
    i := FirstOfClass(Sort(s, ByKey(key)), key, key(x));
  }

  lemma DisagreeingTieShows<T(!new), S>(x: T, y: T, rest: seq<T>, key: T -> seq<string>, shape: T -> S)
    requires key(x) == key(y) && shape(x) != shape(y)
    ensures NormalForm([x] + ([y] + rest), key, shape) != NormalForm([y] + ([x] + rest), key, shape)
  {
    var first, second := [x] + ([y] + rest), [y] + ([x] + rest);
    var i := FrontElementLeadsItsClass(x, [y] + rest, key);
    var j := FrontElementLeadsItsClass(y, [x] + rest, key);
    assert multiset(first) == multiset(second);
    KeysPermute(first, second, key);
    var sorted, sorted' := Sort(first, ByKey(key)), Sort(second, ByKey(key));
    assert forall k :: 0 <= k < |sorted| ==> key(sorted[k]) == Map(sorted, key)[k];
    assert forall k :: 0 <= k < |sorted'| ==> key(sorted'[k]) == Map(sorted', key)[k];
    assert i == j;
    assert NormalForm(first, key, shape)[i] == shape(x) && NormalForm(second, key, shape)[i] == shape(y);
  }

  /** The normal form of every rearrangement is the same. */
  ghost predicate OrderFree<T(!new), S>(a: seq<T>, key: T -> seq<string>, shape: T -> S) {
    forall b: seq<T> :: multiset(b) == multiset(a) ==> NormalForm(b, key, shape) == NormalForm(a, key, shape)
  }

  lemma TwoToTheFront<T>(a: seq<T>, x: T, y: T) returns (rest: seq<T>)
    requires x in a && y in a && x != y
    ensures multiset([x] + ([y] + rest)) == multiset(a)
    ensures multiset([y] + ([x] + rest)) == multiset(a)
  {
    var others := PullToFront(a, x);
    assert y in multiset(a);
    assert y in multiset(others);
    rest := PullToFront(others, y);
  }

  /** The normal form is independent of the arrival order exactly when ties agree. */
  lemma OrderFreeExactlyWhenTiesAgree<T(!new), S>(a: seq<T>, key: T -> seq<string>, shape: T -> S)
    ensures OrderFree(a, key, shape) <==> TiesAgree(a, key, shape)
  {
    if TiesAgree(a, key, shape) {
      forall b: seq<T> | multiset(b) == multiset(a) ensures NormalForm(b, key, shape) == NormalForm(a, key, shape) {
        AgreeingTiesSuffice(a, b, key, shape);
      }
    } else {
      var x, y :| x in a && y in a && key(x) == key(y) && shape(x) != shape(y);
      var rest := TwoToTheFront(a, x, y);
      var first, second := [x] + ([y] + rest), [y] + ([x] + rest);
      DisagreeingTieShows(x, y, rest, key, shape);
    }
  }

  // ---------------------------------------------------------------- grouped requests

  function GroupKey(codec: Codec, request: Recorded): string {
    codec.dumps(FieldsOf(request))
  }

  function Occurrences(codec: Codec, requests: seq<Recorded>, key: string): nat {
    |Filter(requests, (request: Recorded) => GroupKey(codec, request) == key)|
  }

  /** One group for each distinct key, ascending, with the number of requests that have the key. */
  function Groups(codec: Codec, requests: seq<Recorded>): seq<Group> {
    Map(SortedDistinct(Map(requests, (request: Recorded) => GroupKey(codec, request))),
        (key: string) => Group(codec.loads(key), Occurrences(codec, requests, key)))
  }

  function Total(groups: seq<Group>): nat {
    if |groups| == 0 then 0 else groups[0].count + Total(groups[1..])
  }

  lemma GroupsDoNotDependOnOrder(codec: Codec, a: seq<Recorded>, b: seq<Recorded>)
    requires multiset(a) == multiset(b)
    ensures Groups(codec, a) == Groups(codec, b)
  {
    hide SortedDistinct;
    var key := (request: Recorded) => GroupKey(codec, request);
    MapPermutes(a, b, key);
    SameElements(Map(a, key), Map(b, key));
    SortedDistinctDependsOnSet(Map(a, key), Map(b, key));
    forall k ensures Occurrences(codec, a, k) == Occurrences(codec, b, k) {
      FilterPermutes(a, b, (request: Recorded) => GroupKey(codec, request) == k);
    }
    var keys := SortedDistinct(Map(a, key));
    forall i | 0 <= i < |keys| ensures Groups(codec, a)[i] == Groups(codec, b)[i] {
    }
  }

  function TotalOf(codec: Codec, requests: seq<Recorded>, keys: seq<string>): nat {
    if |keys| == 0 then 0 else Occurrences(codec, requests, keys[0]) + TotalOf(codec, requests, keys[1..])
  }

  lemma OccurrencesCons(codec: Codec, requests: seq<Recorded>, key: string)
    requires |requests| > 0
    ensures Occurrences(codec, requests, key)
         == (if GroupKey(codec, requests[0]) == key then 1 else 0) + Occurrences(codec, requests[1..], key)
  {
  }

  lemma {:induction false} TotalOfCons(codec: Codec, requests: seq<Recorded>, keys: seq<string>)
    requires |requests| > 0 && Distinct(keys)
    ensures TotalOf(codec, requests, keys)
         == (if GroupKey(codec, requests[0]) in keys then 1 else 0) + TotalOf(codec, requests[1..], keys)
  {
    hide Occurrences;
    if |keys| > 0 {
      OccurrencesCons(codec, requests, keys[0]);
      TotalOfCons(codec, requests, keys[1..]);
      assert keys == [keys[0]] + keys[1..];
    }
  }

  lemma {:induction false} TotalOfAll(codec: Codec, requests: seq<Recorded>, keys: seq<string>)
    requires Distinct(keys) && forall request :: request in requests ==> GroupKey(codec, request) in keys
    ensures TotalOf(codec, requests, keys) == |requests|
  {
    if |requests| == 0 {
      TotalOfNothing(codec, keys);
    } else {
      TotalOfCons(codec, requests, keys);
      TotalOfAll(codec, requests[1..], keys);
    }
  }

  lemma {:induction false} TotalOfNothing(codec: Codec, keys: seq<string>)
    ensures TotalOf(codec, [], keys) == 0
  {
    if |keys| > 0 {
      TotalOfNothing(codec, keys[1..]);
    }
  }

  lemma {:induction false} TotalIsTotalOf(codec: Codec, requests: seq<Recorded>, keys: seq<string>)
    ensures Total(Map(keys, (key: string) => Group(codec.loads(key), Occurrences(codec, requests, key))))
         == TotalOf(codec, requests, keys)
  {
    if |keys| > 0 {
      TotalIsTotalOf(codec, requests, keys[1..]);
    }
  }

  function Keys(codec: Codec, requests: seq<Recorded>): seq<string> {
    SortedDistinct(Map(requests, (request: Recorded) => GroupKey(codec, request)))
  }

  lemma KeysMean(codec: Codec, requests: seq<Recorded>)
    ensures Ascending(Keys(codec, requests)) && Distinct(Keys(codec, requests))
    ensures forall request :: request in requests ==> GroupKey(codec, request) in Keys(codec, requests)
    ensures Faithful(codec) ==>
            forall key :: key in Keys(codec, requests) ==> codec.dumps(codec.loads(key)) == key
  {
    hide SortedDistinct;
    var all := Map(requests, (request: Recorded) => GroupKey(codec, request));
    SortedDistinctIsTheSet(all);
    AscendingIsDistinct(SortedDistinct(all));
    forall request | request in requests ensures GroupKey(codec, request) in all {
      var i :| 0 <= i < |requests| && requests[i] == request;
      assert all[i] == GroupKey(codec, request);
    }
    if Faithful(codec) {
      forall key | key in all ensures codec.dumps(codec.loads(key)) == key {
        var i :| 0 <= i < |all| && all[i] == key;
        assert key == codec.dumps(FieldsOf(requests[i]));
      }
    }
  }

  /** The counts add up to the number of requests. */
  lemma GroupCountsAddUp(codec: Codec, requests: seq<Recorded>)
    ensures Total(Groups(codec, requests)) == |requests|
  {
    hide Keys, Occurrences;
    KeysMean(codec, requests);
    TotalOfAll(codec, requests, Keys(codec, requests));
    TotalIsTotalOf(codec, requests, Keys(codec, requests));
    assert Groups(codec, requests)
        == Map(Keys(codec, requests), (key: string) => Group(codec.loads(key), Occurrences(codec, requests, key))) by {
      GroupsByKeys(codec, requests);
    }
  }

  lemma GroupsByKeys(codec: Codec, requests: seq<Recorded>)
    ensures Groups(codec, requests)
         == Map(Keys(codec, requests), (key: string) => Group(codec.loads(key), Occurrences(codec, requests, key)))
  {
  }

  /** No two groups have the same fields, and each counts the requests with its fields. */
  lemma GroupsAreDistinct(codec: Codec, requests: seq<Recorded>)
    requires Faithful(codec)
    ensures var groups := Groups(codec, requests);
      && (forall i, j :: 0 <= i < j < |groups| ==> groups[i].fields != groups[j].fields)
      && forall i :: 0 <= i < |groups| ==>
           groups[i].count == |Filter(requests, (request: Recorded) => FieldsOf(request) == groups[i].fields)|
  {
    var groups, keys := Groups(codec, requests), Keys(codec, requests);
    KeysMean(codec, requests);
    GroupsByKeys(codec, requests);
    hide Keys, Occurrences, Groups, GroupKey;
    assert forall i :: 0 <= i < |groups| ==> groups[i].fields == codec.loads(keys[i]);
    forall i, j | 0 <= i < j < |groups| ensures groups[i].fields != groups[j].fields {
      assert keys[i] in keys && keys[j] in keys;
      assert codec.dumps(groups[i].fields) == keys[i] && codec.dumps(groups[j].fields) == keys[j];
    }
    forall i | 0 <= i < |groups|
      ensures groups[i].count == |Filter(requests, (request: Recorded) => FieldsOf(request) == groups[i].fields)|
    {
      assert keys[i] in keys;
      SameFilter(codec, requests, groups[i].fields);
    }
  }

  lemma {:induction false} SameFilter(codec: Codec, requests: seq<Recorded>, fields: Fields)
    requires Faithful(codec)
    ensures Occurrences(codec, requests, codec.dumps(fields))
         == |Filter(requests, (request: Recorded) => FieldsOf(request) == fields)|
  {
    if |requests| > 0 {
      SameFilter(codec, requests[1..], fields);
      var first := FieldsOf(requests[0]);
      assert codec.dumps(first) == codec.dumps(fields) ==> codec.loads(codec.dumps(first)) == fields;
    }
  }

  /** The dictionary after some requests: exactly their keys, each with its number of occurrences. */
  ghost predicate Counted(codec: Codec, requests: seq<Recorded>, counts: map<string, nat>) {
    && (forall key :: key in counts <==> Occurrences(codec, requests, key) > 0)
    && forall key :: key in counts ==> counts[key] == Occurrences(codec, requests, key)
  }

  lemma CountedNext(codec: Codec, requests: seq<Recorded>, counts: map<string, nat>, request: Recorded)
    requires Counted(codec, requests, counts)
    ensures var key := GroupKey(codec, request);
      Counted(codec, requests + [request], counts[key := (if key in counts then counts[key] else 0) + 1])
  {
    hide Occurrences;
    forall other ensures Occurrences(codec, requests + [request], other)
                      == Occurrences(codec, requests, other) + if other == GroupKey(codec, request) then 1 else 0
    {
      OccurrencesAppend(codec, requests, request, other);
    }
  }

  lemma {:induction false} OccurringKeys(codec: Codec, requests: seq<Recorded>, key: string)
    ensures Occurrences(codec, requests, key) > 0 <==>
            key in Map(requests, (request: Recorded) => GroupKey(codec, request))
  {
    hide GroupKey;
    if |requests| > 0 {
      OccurrencesCons(codec, requests, key);
      OccurringKeys(codec, requests[1..], key);
    }
  }

  lemma CountedKeys(codec: Codec, requests: seq<Recorded>, counts: map<string, nat>, sorted: seq<string>)
    requires Counted(codec, requests, counts)
    requires Ascending(sorted) && forall key :: key in sorted <==> key in counts
    ensures sorted == Keys(codec, requests)
  {
    hide Occurrences, SortedDistinct;
    var all := Map(requests, (request: Recorded) => GroupKey(codec, request));
    SortedDistinctIsTheSet(all);
    forall key ensures key in sorted <==> key in all {
      OccurringKeys(codec, requests, key);
    }
    AscendingIsUnique(sorted, Keys(codec, requests));
  }

  /** The grouping loop (lines 265-280) and the list of groups in key order (line 313). */
  method GroupRequests(codec: Codec, requests: seq<Recorded>) returns (groups: seq<Group>)
    ensures groups == Groups(codec, requests)
  {
    var counts: map<string, nat> := map[];
    assert Counted(codec, [], counts);
    hide Counted, Occurrences;
    for i := 0 to |requests|
      invariant Counted(codec, requests[..i], counts)
    {
      var key := GroupKey(codec, requests[i]);
      assert requests[..i + 1] == requests[..i] + [requests[i]];
      CountedNext(codec, requests[..i], counts, requests[i]);
      if key !in counts {
        counts := counts[key := 0];
      }
      counts := counts[key := counts[key] + 1];
    }
    assert requests[..|requests|] == requests;
    var keys := SortedKeys(counts);
    CountedKeys(codec, requests, counts, keys);
    groups := InKeyOrder(codec, requests, counts, keys);
  }

  method InKeyOrder(codec: Codec, requests: seq<Recorded>, counts: map<string, nat>, keys: seq<string>)
    returns (groups: seq<Group>)
    requires Counted(codec, requests, counts) && keys == Keys(codec, requests)
    requires forall key :: key in keys ==> key in counts
    ensures groups == Groups(codec, requests)
  {
    hide Occurrences, Keys, Groups;
    groups := [];
    for i := 0 to |keys|
      invariant |groups| == i
      invariant forall j :: 0 <= j < i ==> groups[j] == Group(codec.loads(keys[j]), Occurrences(codec, requests, keys[j]))
    {
      groups := groups + [Group(codec.loads(keys[i]), counts[keys[i]])];
    }
    GroupsByKeys(codec, requests);
  }

  lemma {:induction false} OccurrencesAppend(codec: Codec, requests: seq<Recorded>, last: Recorded, key: string)
    ensures Occurrences(codec, requests + [last], key)
         == Occurrences(codec, requests, key) + if key == GroupKey(codec, last) then 1 else 0
  {
    var all := requests + [last];
    if |requests| > 0 {
      assert all[1..] == requests[1..] + [last];
      OccurrencesAppend(codec, requests[1..], last, key);
    } else {
      assert all[1..] == [];
    }
  }

  // ---------------------------------------------------------------- committed mutations and the verdict

  function IsMutating(request: Recorded): bool {
    request.mutating
  }

  function CommitPlace(commit: Commit): seq<string> {
    [commit.httpMethod, commit.path]
  }

  /** `normalized_commits` (lines 261-264, 281-288). */
  function Commits(committed: seq<Recorded>): seq<Commit> {
    NormalForm(committed, CommitKey, CommitOf)
  }

  /** `actual_mutations` (lines 252-260, 318-332): the mutating requests in request order, sorted
      again by method and path. */
  function Mutations(requests: seq<Recorded>): seq<Commit> {
    Sort(Map(Filter(Sort(requests, ByKey(RequestKey)), IsMutating), CommitOf), ByKey(CommitPlace))
  }

  /** The run is accepted (lines 328-337). */
  predicate Accepted(requests: seq<Recorded>, expected: seq<Commit>) {
    Mutations(requests) == Sort(expected, ByKey(CommitPlace))
  }

  /** The reported commits are independent of the order they arrived in exactly when commits with
      the same method, path and body digest have the same parsed body. */
  lemma CommitsAreOrderFreeExactlyWhenDigestsFixBodies(committed: seq<Recorded>)
    ensures (forall other: seq<Recorded> :: multiset(other) == multiset(committed) ==> Commits(other) == Commits(committed))
       <==> forall a, b :: a in committed && b in committed && CommitKey(a) == CommitKey(b) ==> a.jsonBody == b.jsonBody
  {
    OrderFreeExactlyWhenTiesAgree(committed, CommitKey, CommitOf);
    if TiesAgree(committed, CommitKey, CommitOf) {
      forall a, b | a in committed && b in committed && CommitKey(a) == CommitKey(b) ensures a.jsonBody == b.jsonBody {
        assert CommitOf(a) == CommitOf(b);
      }
    }
    if forall a, b :: a in committed && b in committed && CommitKey(a) == CommitKey(b) ==> a.jsonBody == b.jsonBody {
      forall a, b | a in committed && b in committed && CommitKey(a) == CommitKey(b) ensures CommitOf(a) == CommitOf(b) {
        CommitKeyFixesPlace(a, b);
      }
    }
    if OrderFree(committed, CommitKey, CommitOf) {
      forall other: seq<Recorded> | multiset(other) == multiset(committed) ensures Commits(other) == Commits(committed) {
      }
    }
    if forall other: seq<Recorded> :: multiset(other) == multiset(committed) ==> Commits(other) == Commits(committed) {
      forall other: seq<Recorded> | multiset(other) == multiset(committed)
        ensures NormalForm(other, CommitKey, CommitOf) == NormalForm(committed, CommitKey, CommitOf)
      {
        assert Commits(other) == Commits(committed);
      }
    }
  }

  lemma CommitKeyFixesPlace(a: Recorded, b: Recorded)
    requires CommitKey(a) == CommitKey(b)
    ensures a.httpMethod == b.httpMethod && a.path == b.path
  {
    assert CommitKey(a)[0] == a.httpMethod && CommitKey(a)[1] == a.path;
    assert CommitKey(b)[0] == b.httpMethod && CommitKey(b)[1] == b.path;
  }

  lemma FilterFront<T>(x: T, rest: seq<T>, keep: T -> bool)
    ensures Filter([x] + rest, keep) == if keep(x) then [x] + Filter(rest, keep) else Filter(rest, keep)
  {
    assert ([x] + rest)[1..] == rest;
  }

  lemma InsertPastFront<T>(x: T, front: T, rest: seq<T>, atMost: (T, T) -> bool)
    requires !atMost(x, front)
    ensures Insert(x, [front] + rest, atMost) == [front] + Insert(x, rest, atMost)
  {
    assert ([front] + rest)[1..] == rest;
  }

  lemma SortFront<T>(x: T, rest: seq<T>, atMost: (T, T) -> bool)
    ensures Sort([x] + rest, atMost) == Insert(x, Sort(rest, atMost), atMost)
  {
    assert ([x] + rest)[1..] == rest;
  }

  lemma {:induction false} InsertThenFilter<T(!new)>(x: T, s: seq<T>, atMost: (T, T) -> bool, keep: T -> bool)
    requires TotalPreorder(atMost) && SortedBy(s, atMost)
    ensures Filter(Insert(x, s, atMost), keep) == if keep(x) then Insert(x, Filter(s, keep), atMost) else Filter(s, keep)
  {
    hide TotalPreorder, Filter;
    if |s| == 0 || atMost(x, s[0]) {
      FilterFront(x, s, keep);
      if keep(x) {
        InsertBeforeAll(x, Filter(s, keep), s, atMost, keep);
      }
    } else {
      InsertThenFilter(x, s[1..], atMost, keep);
      FilterFront(s[0], Insert(x, s[1..], atMost), keep);
      FilterFront(s[0], s[1..], keep);
      assert s == [s[0]] + s[1..];
      InsertPastFront(x, s[0], Filter(s[1..], keep), atMost);
    }
  }

  lemma InsertBeforeAll<T(!new)>(x: T, kept: seq<T>, s: seq<T>, atMost: (T, T) -> bool, keep: T -> bool)
    requires TotalPreorder(atMost) && SortedBy(s, atMost) && kept == Filter(s, keep)
    requires |s| == 0 || atMost(x, s[0])
    ensures Insert(x, kept, atMost) == [x] + kept
  {
    if |kept| > 0 {
      FilterMeans(s, keep);
      assert kept[0] in s;
      var i :| 0 <= i < |s| && s[i] == kept[0];
      assert i == 0 || atMost(s[0], s[i]);
      assert atMost(x, kept[0]);
    }
  }

  /** Selecting after a stable sort is sorting what was selected. */
  lemma {:induction false} SortThenFilter<T(!new)>(s: seq<T>, atMost: (T, T) -> bool, keep: T -> bool)
    requires TotalPreorder(atMost)
    ensures Filter(Sort(s, atMost), keep) == Sort(Filter(s, keep), atMost)
  {
    hide TotalPreorder, SortedBy, Insert;
    if |s| > 0 {
      SortThenFilter(s[1..], atMost, keep);
      SortSorts(s[1..], atMost);
      InsertThenFilter(s[0], Sort(s[1..], atMost), atMost, keep);
      FilterFront(s[0], s[1..], keep);
      assert s == [s[0]] + s[1..];
      SortFront(s[0], Filter(s[1..], keep), atMost);
    }
  }

  lemma {:induction false} SortOfSorted<T>(s: seq<T>, atMost: (T, T) -> bool)
    requires SortedBy(s, atMost)
    ensures Sort(s, atMost) == s
  {
    if |s| > 0 {
      SortOfSorted(s[1..], atMost);
      assert s == [s[0]] + s[1..];
    }
  }

  lemma RequestOrderRefinesPlace(a: Recorded, b: Recorded)
    requires KeyAtMost(RequestKey(a), RequestKey(b))
    ensures KeyAtMost(CommitPlace(CommitOf(a)), CommitPlace(CommitOf(b)))
  {
    hide Less;
    var first, second := RequestKey(a), RequestKey(b);
    assert first[1..] == [a.path, a.query, a.bodySha256] && second[1..] == [b.path, b.query, b.bodySha256];
    assert CommitPlace(CommitOf(a))[1..] == [a.path] && CommitPlace(CommitOf(b))[1..] == [b.path];
  }

  /** The second sort changes nothing: the mutation list is the normal form of the mutating requests. */
  lemma MutationsAreANormalForm(requests: seq<Recorded>)
    ensures Mutations(requests) == NormalForm(Filter(requests, IsMutating), RequestKey, CommitOf)
  {
    hide KeyAtMost, RequestKey, CommitPlace, CommitOf;
    var atMost := ByKey(RequestKey);
    ByKeyIsOrdered(RequestKey);
    SortThenFilter(requests, atMost, IsMutating);
    var sorted := Sort(Filter(requests, IsMutating), atMost);
    SortSorts(Filter(requests, IsMutating), atMost);
    var commits := Map(sorted, CommitOf);
    forall i, j | 0 <= i < j < |commits| ensures ByKey(CommitPlace)(commits[i], commits[j]) {
      assert atMost(sorted[i], sorted[j]);
      RequestOrderRefinesPlace(sorted[i], sorted[j]);
    }
    SortOfSorted(commits, ByKey(CommitPlace));
  }

  predicate IsReading(request: Recorded) {
    !request.mutating
  }

  lemma {:induction false} FilterOfBoth(mutations: seq<Recorded>, others: seq<Recorded>)
    requires forall request :: request in mutations ==> request.mutating
    requires forall request :: request in others ==> !request.mutating
    ensures Filter(mutations + others, IsMutating) == mutations
  {
    if |mutations| > 0 {
      assert (mutations + others)[1..] == mutations[1..] + others;
      FilterOfBoth(mutations[1..], others);
      assert mutations == [mutations[0]] + mutations[1..];
    } else if |others| > 0 {
      assert mutations + others == others && [] + others[1..] == others[1..];
      FilterOfBoth([], others[1..]);
    }
  }

  /** Any arrival order of the mutating requests comes from an arrival order of all of them. */
  lemma MutationOrderLifts(requests: seq<Recorded>, mutations: seq<Recorded>) returns (all: seq<Recorded>)
    requires multiset(mutations) == multiset(Filter(requests, IsMutating))
    ensures multiset(all) == multiset(requests) && Filter(all, IsMutating) == mutations
  {
    var others := Filter(requests, IsReading);
    FilterMeans(requests, IsMutating);
    FilterMeans(requests, IsReading);
    SameElements(mutations, Filter(requests, IsMutating));
    FilterOfBoth(mutations, others);
    all := mutations + others;
    forall x ensures multiset(all)[x] == multiset(requests)[x] {
      FilterCounts(requests, IsMutating, x);
      FilterCounts(requests, IsReading, x);
    }
    SameCounts(multiset(all), multiset(requests));
  }

  /** The mutation list is independent of the arrival order exactly when mutating requests with the same
      method, path, query and body digest have the same parsed body. */
  lemma MutationsAreOrderFreeExactlyWhenTiesAgree(requests: seq<Recorded>)
    ensures (forall other: seq<Recorded> :: multiset(other) == multiset(requests) ==> Mutations(other) == Mutations(requests))
       <==> TiesAgree(Filter(requests, IsMutating), RequestKey, CommitOf)
  {
    hide Mutations, NormalForm;
    var mutations := Filter(requests, IsMutating);
    MutationsAreANormalForm(requests);
    OrderFreeExactlyWhenTiesAgree(mutations, RequestKey, CommitOf);
    if OrderFree(mutations, RequestKey, CommitOf) {
      forall other: seq<Recorded> | multiset(other) == multiset(requests) ensures Mutations(other) == Mutations(requests) {
        MutationsAreANormalForm(other);
        FilterPermutes(other, requests, IsMutating);
      }
    }
    if forall other: seq<Recorded> :: multiset(other) == multiset(requests) ==> Mutations(other) == Mutations(requests) {
      forall moved: seq<Recorded> | multiset(moved) == multiset(mutations)
        ensures NormalForm(moved, RequestKey, CommitOf) == NormalForm(mutations, RequestKey, CommitOf)
      {
        var all := MutationOrderLifts(requests, moved);
        MutationsAreANormalForm(all);
        assert Mutations(all) == Mutations(requests);
      }
    }
  }

  // ---------------------------------------------------------------- what the verdict compares

  /** The elements with one key, in the order they are listed. */
  function Class<T>(s: seq<T>, key: T -> seq<string>, k: seq<string>): seq<T> {
    Filter(s, (y: T) => key(y) == k)
  }

  lemma SortedHeadLeadsItsClass<T(!new)>(a: seq<T>, b: seq<T>, key: T -> seq<string>)
    requires SortedBy(a, ByKey(key)) && SortedBy(b, ByKey(key))
    requires forall k :: Class(a, key, k) == Class(b, key, k)
    requires |a| > 0
    ensures |b| > 0 && a[0] == b[0]
  {
    var k := key(a[0]);
    assert Class(a, key, k)[0] == a[0];
    assert Class(b, key, k)[0] == a[0];
    FilterMeans(b, (y: T) => key(y) == k);
    assert a[0] in b;
    assert Class(b, key, key(b[0]))[0] == b[0];
    assert Class(a, key, key(b[0]))[0] == b[0];
    FilterMeans(a, (y: T) => key(y) == key(b[0]));
    assert b[0] in a;
    HeadIsLeast(a, b[0], key);
    HeadIsLeast(b, a[0], key);
    KeyAtMostIsTotal(key(a[0]), key(b[0]));
  }

  lemma HeadIsLeast<T>(s: seq<T>, x: T, key: T -> seq<string>)
    requires SortedBy(s, ByKey(key)) && x in s
    ensures KeyAtMost(key(s[0]), key(x))
  {
    var i :| 0 <= i < |s| && s[i] == x;
    if i > 0 {
      assert ByKey(key)(s[0], s[i]);
    } else {
      KeyAtMostIsTotal(key(x), key(x));
    }
  }

  lemma {:induction false} SortedIsItsClasses<T(!new)>(a: seq<T>, b: seq<T>, key: T -> seq<string>)
    requires SortedBy(a, ByKey(key)) && SortedBy(b, ByKey(key))
    requires forall k :: Class(a, key, k) == Class(b, key, k)
    ensures a == b
  {
    if |a| > 0 {
      SortedHeadLeadsItsClass(a, b, key);
      ClassesOfTails(a, b, key);
      SortedIsItsClasses(a[1..], b[1..], key);
      assert a == [a[0]] + a[1..] && b == [b[0]] + b[1..];
    } else if |b| > 0 {
      SortedHeadLeadsItsClass(b, a, key);
    }
  }

  lemma ClassesOfTails<T(!new)>(a: seq<T>, b: seq<T>, key: T -> seq<string>)
    requires |a| > 0 && |b| > 0 && a[0] == b[0]
    requires forall k :: Class(a, key, k) == Class(b, key, k)
    ensures forall k :: Class(a[1..], key, k) == Class(b[1..], key, k)
  {
    forall k ensures Class(a[1..], key, k) == Class(b[1..], key, k) {
      assert Class(a, key, k) == Class(b, key, k);
      ClassFront(a, key, k);
      ClassFront(b, key, k);
      if key(a[0]) == k {
        assert ([a[0]] + Class(a[1..], key, k))[1..] == Class(a[1..], key, k);
        assert ([b[0]] + Class(b[1..], key, k))[1..] == Class(b[1..], key, k);
      }
    }
  }

  lemma ClassFront<T>(s: seq<T>, key: T -> seq<string>, k: seq<string>)
    requires |s| > 0
    ensures key(s[0]) == k ==> Class(s, key, k) == [s[0]] + Class(s[1..], key, k)
    ensures key(s[0]) != k ==> Class(s, key, k) == Class(s[1..], key, k)
  {
  }

  /** Two lists sort to the same list exactly when each key has the same elements in the same order. */
  lemma SameSortExactlyWhenSameClasses<T(!new)>(a: seq<T>, b: seq<T>, key: T -> seq<string>)
    ensures Sort(a, ByKey(key)) == Sort(b, ByKey(key)) <==> forall k :: Class(a, key, k) == Class(b, key, k)
  {
    var sorted, sorted' := Sort(a, ByKey(key)), Sort(b, ByKey(key));
    ByKeyIsOrdered(key);
    SortSorts(a, ByKey(key));
    SortSorts(b, ByKey(key));
    forall k ensures Class(sorted, key, k) == Class(a, key, k) && Class(sorted', key, k) == Class(b, key, k) {
      SortIsStable(a, key, k);
      SortIsStable(b, key, k);
    }
    if forall k :: Class(a, key, k) == Class(b, key, k) {
      forall k ensures Class(sorted, key, k) == Class(sorted', key, k) {
        assert Class(a, key, k) == Class(b, key, k);
      }
      SortedIsItsClasses(sorted, sorted', key);
    }
  }

  /** A run is accepted exactly when, for every method and path, the expectation lists the bodies of
      the mutating requests in the order of their query and body digest. No mutation is missing, none
      is extra, and the expectation's order across different paths does not matter. */
  lemma AcceptedExactlyWhenEachPlaceMatches(requests: seq<Recorded>, expected: seq<Commit>)
    ensures Accepted(requests, expected) <==>
            forall place :: Class(expected, CommitPlace, place)
                         == Class(NormalForm(Filter(requests, IsMutating), RequestKey, CommitOf), CommitPlace, place)
    ensures Accepted(requests, expected) ==>
            multiset(expected) == multiset(Map(Filter(requests, IsMutating), CommitOf))
  {
    hide Filter, Class, NormalForm, ByKey, Sort;
    var place := ByKey(CommitPlace);
    var mutations := Filter(requests, IsMutating);
    var actual := NormalForm(mutations, RequestKey, CommitOf);
    MutationsAreANormalForm(requests);
    MutationsAreSorted(requests);
    SameSortExactlyWhenSameClasses(expected, actual, CommitPlace);
    if Accepted(requests, expected) {
      SortPermutes(expected, place);
      NormalFormPermutes(mutations, RequestKey, CommitOf);
    }
  }

  lemma MutationsAreSorted(requests: seq<Recorded>)
    ensures Sort(Mutations(requests), ByKey(CommitPlace)) == Mutations(requests)
  {
    hide Filter, Map;
    var commits := Map(Filter(Sort(requests, ByKey(RequestKey)), IsMutating), CommitOf);
    ByKeyIsOrdered(CommitPlace);
    SortSorts(commits, ByKey(CommitPlace));
    SortOfSorted(Sort(commits, ByKey(CommitPlace)), ByKey(CommitPlace));
  }

  lemma NormalFormPermutes<T(!new), S>(s: seq<T>, key: T -> seq<string>, shape: T -> S)
    ensures multiset(NormalForm(s, key, shape)) == multiset(Map(s, shape))
  {
    SortPermutes(s, ByKey(key));
    MapPermutes(Sort(s, ByKey(key)), s, shape);
  }

  // ---------------------------------------------------------------- the whole observation

  datatype Observable = Observable(
    allAuthenticated: bool,
    groups: seq<Group>,
    committed: seq<Commit>,
    mutationRequests: nat)

  predicate AllAuthenticated(requests: seq<Recorded>) {
    forall request :: request in requests ==> request.authenticated
  }

  function Observe(codec: Codec, requests: seq<Recorded>, committed: seq<Recorded>): Observable {
    var sorted := Sort(requests, ByKey(RequestKey));
    Observable(
      AllAuthenticated(sorted),
      Groups(codec, sorted),
      Commits(committed),
      |Filter(sorted, IsMutating)|)
  }

  datatype Outcome = Observed(observable: Observable) | Defect

  function RunOutcome(codec: Codec, requests: seq<Recorded>, committed: seq<Recorded>, expected: seq<Commit>): Outcome {
    if Accepted(requests, expected) then Observed(Observe(codec, requests, committed)) else Defect
  }

  /** Commits with the same method, path and body digest have the same parsed body. */
  ghost predicate DigestsFixBodies(committed: seq<Recorded>) {
    forall a, b :: a in committed && b in committed && CommitKey(a) == CommitKey(b) ==> a.jsonBody == b.jsonBody
  }

  lemma DigestsFixTies(committed: seq<Recorded>)
    requires DigestsFixBodies(committed)
    ensures TiesAgree(committed, CommitKey, CommitOf)
  {
    forall a, b | a in committed && b in committed && CommitKey(a) == CommitKey(b) ensures CommitOf(a) == CommitOf(b) {
      CommitKeyFixesPlace(a, b);
    }
  }

  /** Neither what a run reports nor whether it is accepted changes when requests and commits arrive in
      another order, whatever the case expects. */
  ghost predicate OutcomeIsOrderFree(codec: Codec, requests: seq<Recorded>, committed: seq<Recorded>) {
    forall requests': seq<Recorded>, committed': seq<Recorded>, expected: seq<Commit> ::
      multiset(requests') == multiset(requests) && multiset(committed') == multiset(committed) ==>
      RunOutcome(codec, requests', committed', expected) == RunOutcome(codec, requests, committed, expected)
  }

  lemma AgreeingTiesFixTheOutcome(codec: Codec, requests: seq<Recorded>, requests': seq<Recorded>,
                                  committed: seq<Recorded>, committed': seq<Recorded>, expected: seq<Commit>)
    requires multiset(requests') == multiset(requests) && multiset(committed') == multiset(committed)
    requires TiesAgree(Filter(requests, IsMutating), RequestKey, CommitOf) && DigestsFixBodies(committed)
    ensures RunOutcome(codec, requests', committed', expected) == RunOutcome(codec, requests, committed, expected)
  {
    hide Groups, NormalForm, Mutations, Filter, Sort, DigestsFixBodies, TiesAgree;
    DigestsFixTies(committed);
    AgreeingTiesSuffice(committed, committed', CommitKey, CommitOf);
    MutationsAreOrderFreeExactlyWhenTiesAgree(requests);
    assert Mutations(requests') == Mutations(requests);
    var sorted, sorted' := Sort(requests, ByKey(RequestKey)), Sort(requests', ByKey(RequestKey));
    SortPermutes(requests, ByKey(RequestKey));
    SortPermutes(requests', ByKey(RequestKey));
    GroupsDoNotDependOnOrder(codec, sorted, sorted');
    FilterPermutes(sorted, sorted', IsMutating);
    SameElements(sorted, sorted');
  }

  /** A run that did exactly what the case expects is accepted. */
  lemma OwnMutationsAreAccepted(requests: seq<Recorded>)
    ensures Accepted(requests, Mutations(requests))
  {
    MutationsAreSorted(requests);
  }

  lemma OrderFreeOutcomeFixesMutations(codec: Codec, requests: seq<Recorded>, committed: seq<Recorded>)
    requires OutcomeIsOrderFree(codec, requests, committed)
    ensures TiesAgree(Filter(requests, IsMutating), RequestKey, CommitOf)
  {
    hide Mutations, Observe, TiesAgree, Filter;
    var expected := Mutations(requests);
    OwnMutationsAreAccepted(requests);
    MutationsAreSorted(requests);
    forall other: seq<Recorded> | multiset(other) == multiset(requests) ensures Mutations(other) == Mutations(requests) {
      assert RunOutcome(codec, other, committed, expected) == RunOutcome(codec, requests, committed, expected);
    }
    MutationsAreOrderFreeExactlyWhenTiesAgree(requests);
  }

  lemma OrderFreeOutcomeFixesCommits(codec: Codec, requests: seq<Recorded>, committed: seq<Recorded>)
    requires OutcomeIsOrderFree(codec, requests, committed)
    ensures DigestsFixBodies(committed)
  {
    hide Mutations, Accepted, Commits, CommitKey, Groups, Filter, Sort;
    var expected := Mutations(requests);
    OwnMutationsAreAccepted(requests);
    forall other: seq<Recorded> | multiset(other) == multiset(committed) ensures Commits(other) == Commits(committed) {
      assert RunOutcome(codec, requests, other, expected) == RunOutcome(codec, requests, committed, expected);
    }
    CommitsAreOrderFreeExactlyWhenDigestsFixBodies(committed);
  }

  /** The observation and the verdict depend only on the multisets of requests and commits exactly when
      mutating requests the first sort cannot tell apart, and commits the second cannot, have the same
      parsed body. Requests that only read may differ in it. */
  lemma OutcomeIsOrderFreeExactlyWhenTiesAgree(codec: Codec, requests: seq<Recorded>, committed: seq<Recorded>)
    ensures OutcomeIsOrderFree(codec, requests, committed) <==>
      TiesAgree(Filter(requests, IsMutating), RequestKey, CommitOf) && DigestsFixBodies(committed)
  {
    if OutcomeIsOrderFree(codec, requests, committed) {
      OrderFreeOutcomeFixesMutations(codec, requests, committed);
      OrderFreeOutcomeFixesCommits(codec, requests, committed);
    }
    hide TiesAgree, DigestsFixBodies, RunOutcome, Filter;
    if TiesAgree(Filter(requests, IsMutating), RequestKey, CommitOf) && DigestsFixBodies(committed) {
      forall requests': seq<Recorded>, committed': seq<Recorded>, expected: seq<Commit>
        | multiset(requests') == multiset(requests) && multiset(committed') == multiset(committed)
        ensures RunOutcome(codec, requests', committed', expected) == RunOutcome(codec, requests, committed, expected)
      {
        AgreeingTiesFixTheOutcome(codec, requests, requests', committed, committed', expected);
      }
    }
  }

  /** A request with the same bytes sent once as JSON and once under another content type: the digest is
      the same, the parsed body is not. */
  function Posted(path: string, digest: string, body: Json): Recorded {
    Recorded("POST", path, "", digest, body, true, true)
  }

  /** Two such requests make the outcome depend on which of them came first. */
  lemma ContentTypeMakesOrderMatter(codec: Codec, path: string, digest: string, body: Json, committed: seq<Recorded>)
    requires body != Null
    ensures !OutcomeIsOrderFree(codec, [Posted(path, digest, body), Posted(path, digest, Null)], committed)
  {
    var first, second := Posted(path, digest, body), Posted(path, digest, Null);
    var requests := [first, second];
    FilterMeans(requests, IsMutating);
    assert first in Filter(requests, IsMutating) && second in Filter(requests, IsMutating);
    assert RequestKey(first) == RequestKey(second) && CommitOf(first) != CommitOf(second);
    assert !TiesAgree(Filter(requests, IsMutating), RequestKey, CommitOf);
    hide TiesAgree, OutcomeIsOrderFree, Filter;
    OutcomeIsOrderFreeExactlyWhenTiesAgree(codec, requests, committed);
  }
}

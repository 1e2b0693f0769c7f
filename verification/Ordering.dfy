/** Total orders and the stable sort that stands for the library sorts the repository calls. */
module Ordering {

  /** Strict lexicographic order on strings: Rust compares UTF-8 bytes and Python compares code
      points, and both agree with the order of the scalar values. */
  predicate Less(a: string, b: string) {
    if |b| == 0 then false
    else if |a| == 0 then true
    else a[0] < b[0] || (a[0] == b[0] && Less(a[1..], b[1..]))
  }

  /** Either the first is a shorter beginning of the second, or it is lower at the first difference. */
  lemma {:induction false} LessMeans(a: string, b: string)
    ensures Less(a, b) <==>
      exists k :: 0 <= k <= |a| && k < |b| && a[..k] == b[..k] && (k == |a| || a[k] < b[k])
  {
    if |b| > 0 && |a| > 0 {
      LessMeans(a[1..], b[1..]);
      if a[0] == b[0] && Less(a[1..], b[1..]) {
        var k :| 0 <= k <= |a[1..]| && k < |b[1..]| && a[1..][..k] == b[1..][..k] && (k == |a[1..]| || a[1..][k] < b[1..][k]);
        assert a[..k + 1] == [a[0]] + a[1..][..k] && b[..k + 1] == [b[0]] + b[1..][..k];
      }
      if k :| 0 <= k <= |a| && k < |b| && a[..k] == b[..k] && (k == |a| || a[k] < b[k]) {
        if k > 0 {
          assert a[0] == a[..k][0] == b[..k][0] == b[0];
          assert a[1..][..k - 1] == a[..k][1..] == b[..k][1..] == b[1..][..k - 1];
        }
      }
    } else if |b| > 0 {
      assert a[..0] == b[..0];
    }
  }

  predicate AtMost(a: string, b: string) {
    !Less(b, a)
  }

  lemma {:induction false} LessIsTotal(a: string, b: string)
    ensures a == b || Less(a, b) || Less(b, a)
    ensures a == b ==> !Less(a, b)
    ensures !(Less(a, b) && Less(b, a))
  {
    if |a| > 0 && |b| > 0 {
      LessIsTotal(a[1..], b[1..]);
      assert a == [a[0]] + a[1..] && b == [b[0]] + b[1..];
    }
  }

  lemma {:induction false} LessIsTransitive(a: string, b: string, c: string)
    requires Less(a, b) && Less(b, c)
    ensures Less(a, c)
  {
    if |a| > 0 && a[0] == b[0] && b[0] == c[0] {
      LessIsTransitive(a[1..], b[1..], c[1..]);
    }
  }

  lemma AtMostIsTransitive(a: string, b: string, c: string)
    requires AtMost(a, b) && AtMost(b, c)
    ensures AtMost(a, c)
  {
    LessIsTotal(a, b);
    LessIsTotal(b, c);
    LessIsTotal(a, c);
    if Less(a, b) && Less(b, c) {
      LessIsTransitive(a, b, c);
    }
  }

  lemma AtMostIsAntisymmetric(a: string, b: string)
    requires AtMost(a, b) && AtMost(b, a)
    ensures a == b
  {
    LessIsTotal(a, b);
  }

  /** Lexicographic order on lists of strings, the shape of a Python tuple key. */
  predicate KeyAtMost(a: seq<string>, b: seq<string>) {
    if |a| == 0 then true
    else if |b| == 0 then false
    else Less(a[0], b[0]) || (a[0] == b[0] && KeyAtMost(a[1..], b[1..]))
  }

  /** Either the first is a beginning of the second, or it is lower at the first difference. */
  lemma {:induction false} KeyAtMostMeans(a: seq<string>, b: seq<string>)
    ensures KeyAtMost(a, b) <==>
      exists k :: 0 <= k <= |a| && k <= |b| && a[..k] == b[..k] && (k == |a| || (k < |b| && Less(a[k], b[k])))
  {
    hide Less;
    assert a[..0] == b[..0];
    if |b| > 0 && |a| > 0 {
      LessIsTotal(a[0], b[0]);
      KeyAtMostMeans(a[1..], b[1..]);
      if a[0] == b[0] && KeyAtMost(a[1..], b[1..]) {
        var k :| 0 <= k <= |a[1..]| && k <= |b[1..]| && a[1..][..k] == b[1..][..k]
                 && (k == |a[1..]| || (k < |b[1..]| && Less(a[1..][k], b[1..][k])));
        assert a[..k + 1] == [a[0]] + a[1..][..k] && b[..k + 1] == [b[0]] + b[1..][..k];
      }
      if k :| 0 <= k <= |a| && k <= |b| && a[..k] == b[..k] && (k == |a| || (k < |b| && Less(a[k], b[k]))) {
        if k > 0 {
          assert a[0] == a[..k][0] == b[..k][0] == b[0];
          assert a[1..][..k - 1] == a[..k][1..] == b[..k][1..] == b[1..][..k - 1];
        }
      }
    }
  }

  lemma {:induction false} KeyAtMostIsTotal(a: seq<string>, b: seq<string>)
    ensures KeyAtMost(a, b) || KeyAtMost(b, a)
    ensures KeyAtMost(a, b) && KeyAtMost(b, a) ==> a == b
  {
    if |a| > 0 && |b| > 0 {
      LessIsTotal(a[0], b[0]);
      KeyAtMostIsTotal(a[1..], b[1..]);
      assert a == [a[0]] + a[1..] && b == [b[0]] + b[1..];
    }
  }

  lemma {:induction false} KeyAtMostIsTransitive(a: seq<string>, b: seq<string>, c: seq<string>)
    requires KeyAtMost(a, b) && KeyAtMost(b, c)
    ensures KeyAtMost(a, c)
  {
    if |a| > 0 {
      if Less(a[0], b[0]) && Less(b[0], c[0]) {
        LessIsTransitive(a[0], b[0], c[0]);
      } else if a[0] == b[0] && b[0] == c[0] {
        KeyAtMostIsTransitive(a[1..], b[1..], c[1..]);
      }
    }
  }

  ghost predicate TotalPreorder<T(!new)>(atMost: (T, T) -> bool) {
    && (forall a, b :: atMost(a, b) || atMost(b, a))
    && (forall a, b, c :: atMost(a, b) && atMost(b, c) ==> atMost(a, c))
  }

  lemma StringsAreOrdered()
    ensures TotalPreorder(AtMost)
    ensures forall a, b :: AtMost(a, b) && AtMost(b, a) ==> a == b
  {
    forall a, b ensures AtMost(a, b) || AtMost(b, a) {
      LessIsTotal(a, b);
    }
    forall a, b, c | AtMost(a, b) && AtMost(b, c) ensures AtMost(a, c) {
      AtMostIsTransitive(a, b, c);
    }
    forall a, b | AtMost(a, b) && AtMost(b, a) ensures a == b {
      AtMostIsAntisymmetric(a, b);
    }
  }

  ghost predicate SortedBy<T>(s: seq<T>, atMost: (T, T) -> bool) {
    forall i, j :: 0 <= i < j < |s| ==> atMost(s[i], s[j])
  }

  function Insert<T>(x: T, s: seq<T>, atMost: (T, T) -> bool): (r: seq<T>)
    ensures |r| == |s| + 1
  {
    if |s| == 0 || atMost(x, s[0]) then [x] + s
    else [s[0]] + Insert(x, s[1..], atMost)
  }

  /** Stable sort: an element keeps its place among those it ties with. */
  function Sort<T>(s: seq<T>, atMost: (T, T) -> bool): (r: seq<T>)
    ensures |r| == |s|
  {
    if |s| == 0 then [] else Insert(s[0], Sort(s[1..], atMost), atMost)
  }

  lemma {:induction false} InsertPermutes<T>(x: T, s: seq<T>, atMost: (T, T) -> bool)
    ensures multiset(Insert(x, s, atMost)) == multiset{x} + multiset(s)
  {
    if !(|s| == 0 || atMost(x, s[0])) {
      InsertPermutes(x, s[1..], atMost);
      assert s == [s[0]] + s[1..];
    }
  }

  lemma {:induction false} SortPermutes<T>(s: seq<T>, atMost: (T, T) -> bool)
    ensures multiset(Sort(s, atMost)) == multiset(s)
  {
    if |s| > 0 {
      SortPermutes(s[1..], atMost);
      InsertPermutes(s[0], Sort(s[1..], atMost), atMost);
      assert s == [s[0]] + s[1..];
    }
  }

  lemma {:induction false} InsertKeepsSorted<T(!new)>(x: T, s: seq<T>, atMost: (T, T) -> bool)
    requires TotalPreorder(atMost) && SortedBy(s, atMost)
    ensures SortedBy(Insert(x, s, atMost), atMost)
  {
    var r := Insert(x, s, atMost);
    if |s| == 0 {
    } else if atMost(x, s[0]) {
      forall i, j | 0 <= i < j < |r| ensures atMost(r[i], r[j]) {
        if i == 0 && j > 1 {
          assert atMost(s[0], s[j - 1]);
        }
      }
    } else {
      var tail := Insert(x, s[1..], atMost);
      InsertKeepsSorted(x, s[1..], atMost);
      InsertPermutes(x, s[1..], atMost);
      forall i, j | 0 <= i < j < |r| ensures atMost(r[i], r[j]) {
        if i == 0 {
          assert tail[j - 1] in multiset(tail);
          if tail[j - 1] != x {
            assert tail[j - 1] in multiset(s[1..]);
          }
        } else {
          assert r[i] == tail[i - 1] && r[j] == tail[j - 1];
        }
      }
    }
  }

  lemma {:induction false} SortSorts<T(!new)>(s: seq<T>, atMost: (T, T) -> bool)
    requires TotalPreorder(atMost)
    ensures SortedBy(Sort(s, atMost), atMost)
    ensures multiset(Sort(s, atMost)) == multiset(s)
  {
    SortPermutes(s, atMost);
    if |s| > 0 {
      SortSorts(s[1..], atMost);
      InsertKeepsSorted(s[0], Sort(s[1..], atMost), atMost);
    }
  }

  lemma SortedHeadsAgree<T>(a: seq<T>, b: seq<T>, atMost: (T, T) -> bool)
    requires SortedBy(a, atMost) && SortedBy(b, atMost)
    requires multiset(a) == multiset(b) && |a| > 0
    requires forall x, y :: x in a && y in a && atMost(x, y) && atMost(y, x) ==> x == y
    ensures |b| > 0 && a[0] == b[0]
  {
    SameLength(a, b);
    SameElements(a, b);
    assert a[0] in b && b[0] in a;
    var i :| 0 <= i < |b| && b[i] == a[0];
    var j :| 0 <= j < |a| && a[j] == b[0];
    assert i == 0 || atMost(b[0], a[0]);
    assert j == 0 || atMost(a[0], b[0]);
  }

  lemma TailMultiset<T>(a: seq<T>)
    requires |a| > 0
    ensures multiset(a[1..]) == multiset(a) - multiset{a[0]}
  {
    assert a == [a[0]] + a[1..];
  }

  /** A sorted list is determined by its elements when ties are between equal elements only. */
  lemma {:induction false} SortedIsUnique<T>(a: seq<T>, b: seq<T>, atMost: (T, T) -> bool)
    requires SortedBy(a, atMost) && SortedBy(b, atMost)
    requires multiset(a) == multiset(b)
    requires forall x, y :: x in a && y in a && atMost(x, y) && atMost(y, x) ==> x == y
    ensures a == b
  {
    SameLength(a, b);
    if |a| > 0 {
      SortedHeadsAgree(a, b, atMost);
      TailMultiset(a);
      TailMultiset(b);
      SortedIsUnique(a[1..], b[1..], atMost);
      assert a == [a[0]] + a[1..] && b == [b[0]] + b[1..];
    }
  }

  lemma SameLength<T>(a: seq<T>, b: seq<T>)
    requires multiset(a) == multiset(b)
    ensures |a| == |b|
  {
    assert |multiset(a)| == |a| && |multiset(b)| == |b|;
  }

  lemma SameElements<T>(a: seq<T>, b: seq<T>)
    requires multiset(a) == multiset(b)
    ensures forall x :: x in a <==> x in b
  {
    assert forall x :: x in a <==> x in multiset(a);
  }

  // ---------------------------------------------------------------- sort, then drop equal neighbours

  ghost predicate Ascending(s: seq<string>) {
    forall i, j :: 0 <= i < j < |s| ==> Less(s[i], s[j])
  }

  /** `dedup`: keeps the first of each run of equal neighbours. */
  function Dedup(s: seq<string>): seq<string> {
    if |s| < 2 then s
    else if s[0] == s[1] then Dedup(s[1..])
    else [s[0]] + Dedup(s[1..])
  }

  function SortedDistinct(s: seq<string>): seq<string> {
    Dedup(Sort(s, AtMost))
  }

  lemma {:induction false} DedupKeepsElements(s: seq<string>)
    ensures forall x :: x in Dedup(s) <==> x in s
    ensures |s| > 0 ==> |Dedup(s)| > 0 && Dedup(s)[0] == s[0]
    ensures |Dedup(s)| <= |s|
  {
    if |s| >= 2 {
      DedupKeepsElements(s[1..]);
      assert s == [s[0]] + s[1..];
    }
  }

  lemma {:induction false} DedupAscends(s: seq<string>)
    requires SortedBy(s, AtMost)
    ensures Ascending(Dedup(s))
  {
    if |s| >= 2 {
      var rest := Dedup(s[1..]);
      DedupAscends(s[1..]);
      DedupKeepsElements(s[1..]);
      if s[0] != s[1] {
        forall j | 0 <= j < |rest| ensures Less(s[0], rest[j]) {
          assert AtMost(s[0], s[1]);
          LessIsTotal(s[0], s[1]);
          if j > 0 {
            assert rest[0] == s[1];
            LessIsTransitive(s[0], s[1], rest[j]);
          }
        }
      }
    }
  }

  lemma SortedDistinctIsTheSet(s: seq<string>)
    ensures Ascending(SortedDistinct(s))
    ensures forall x :: x in SortedDistinct(s) <==> x in s
    ensures |SortedDistinct(s)| <= |s|
  {
    StringsAreOrdered();
    SortSorts(s, AtMost);
    DedupAscends(Sort(s, AtMost));
    DedupKeepsElements(Sort(s, AtMost));
    SameElements(Sort(s, AtMost), s);
  }

  lemma AscendingIsDistinct(s: seq<string>)
    requires Ascending(s)
    ensures forall i, j :: 0 <= i < j < |s| ==> s[i] != s[j]
  {
    forall i, j | 0 <= i < j < |s| ensures s[i] != s[j] {
      LessIsTotal(s[i], s[j]);
    }
  }

  lemma AscendingHeadsAgree(a: seq<string>, b: seq<string>)
    requires Ascending(a) && Ascending(b) && |a| > 0 && |b| > 0
    requires a[0] in b && b[0] in a
    ensures a[0] == b[0]
  {
    var i :| 0 <= i < |b| && b[i] == a[0];
    var j :| 0 <= j < |a| && a[j] == b[0];
    assert i == 0 || Less(b[0], a[0]);
    assert j == 0 || Less(a[0], b[0]);
    LessIsTotal(a[0], b[0]);
  }

  /** An ascending list is determined by its set of elements. */
  lemma {:induction false} AscendingIsUnique(a: seq<string>, b: seq<string>)
    requires Ascending(a) && Ascending(b)
    requires forall x :: x in a <==> x in b
    ensures a == b
  {
    if |a| > 0 {
      assert a[0] in b;
    }
    if |b| > 0 {
      assert b[0] in a;
    }
    if |a| > 0 {
      AscendingHeadsAgree(a, b);
      AscendingTail(a);
      AscendingTail(b);
      AscendingIsUnique(a[1..], b[1..]);
      assert a == [a[0]] + a[1..] && b == [b[0]] + b[1..];
    }
  }

  lemma AscendingTail(s: seq<string>)
    requires Ascending(s) && |s| > 0
    ensures Ascending(s[1..])
    ensures forall x :: x in s[1..] <==> x in s && x != s[0]
  {
    AscendingIsDistinct(s);
    forall x | x in s && x != s[0] ensures x in s[1..] {
      var i :| 0 <= i < |s| && s[i] == x;
      assert s[1..][i - 1] == x;
    }
  }

  ghost predicate Distinct<T>(s: seq<T>) {
    forall i, j :: 0 <= i < j < |s| ==> s[i] != s[j]
  }

  lemma {:induction false} DistinctCounts<T>(s: seq<T>)
    ensures Distinct(s) <==> forall x :: multiset(s)[x] <= 1
  {
    if |s| > 0 {
      var rest := s[1..];
      assert s == [s[0]] + rest;
      assert multiset(s) == multiset{s[0]} + multiset(rest);
      DistinctCounts(rest);
      if Distinct(s) {
        assert Distinct(rest);
        assert s[0] !in rest;
        assert multiset(rest)[s[0]] == 0;
      }
      if forall x :: multiset(s)[x] <= 1 {
        assert multiset(s)[s[0]] <= 1;
        assert s[0] !in multiset(rest);
        assert forall x :: multiset(rest)[x] <= multiset(s)[x];
        DistinctCons(s);
      }
    }
  }

  lemma DistinctCons<T>(s: seq<T>)
    requires |s| > 0 && Distinct(s[1..]) && s[0] !in s[1..]
    ensures Distinct(s)
  {
    forall i, j | 0 <= i < j < |s| ensures s[i] != s[j] {
      assert s[j] == s[1..][j - 1];
      if i > 0 {
        assert s[i] == s[1..][i - 1];
      }
    }
  }

  function Elements<T>(s: seq<T>): set<T> {
    set x | x in s
  }

  lemma ElementsFront<T>(s: seq<T>)
    requires |s| > 0
    ensures Elements(s) == {s[0]} + Elements(s[1..])
  {
    assert s == [s[0]] + s[1..];
  }

  lemma DistinctFront<T>(s: seq<T>)
    requires |s| > 0
    ensures Distinct(s) <==> s[0] !in s[1..] && Distinct(s[1..])
  {
    if s[0] !in s[1..] && Distinct(s[1..]) {
      DistinctCons(s);
    }
  }

  /** A list has no repetitions exactly when its set is as large as the list. */
  lemma {:induction false} DistinctSize<T>(s: seq<T>)
    ensures |Elements(s)| <= |s|
    ensures |Elements(s)| == |s| <==> Distinct(s)
  {
    if |s| > 0 {
      DistinctFront(s);
      DistinctSize(s[1..]);
      ElementsFront(s);
      if s[0] in s[1..] {
        assert {s[0]} + Elements(s[1..]) == Elements(s[1..]);
      } else {
        assert |{s[0]} + Elements(s[1..])| == 1 + |Elements(s[1..])|;
      }
    } else {
      assert Elements(s) == {};
    }
  }

  lemma DistinctPermutes<T>(a: seq<T>, b: seq<T>)
    requires multiset(a) == multiset(b)
    ensures Distinct(a) <==> Distinct(b)
  {
    DistinctCounts(a);
    DistinctCounts(b);
  }

  /** Without repetitions, sorting and dropping duplicates keeps every element. */
  lemma DistinctKeepsLength(s: seq<string>)
    requires Distinct(s)
    ensures |SortedDistinct(s)| == |s|
    ensures SortedDistinct(s) == Sort(s, AtMost)
  {
    SortPermutes(s, AtMost);
    DistinctPermutes(s, Sort(s, AtMost));
    DedupOfDistinct(Sort(s, AtMost));
  }

  lemma {:induction false} DedupOfDistinct(s: seq<string>)
    requires Distinct(s)
    ensures Dedup(s) == s
  {
    if |s| >= 2 {
      assert s[0] != s[1];
      DedupOfDistinct(s[1..]);
    }
  }

  /** The result depends on the set of elements only, not on their order or number. */
  lemma SortedDistinctDependsOnSet(a: seq<string>, b: seq<string>)
    requires forall x :: x in a <==> x in b
    ensures SortedDistinct(a) == SortedDistinct(b)
  {
    SortedDistinctIsTheSet(a);
    SortedDistinctIsTheSet(b);
    AscendingIsUnique(SortedDistinct(a), SortedDistinct(b));
  }

  /** `sorted(mapping)`, and the key order of a `BTreeMap`. */
  method SortedKeys<V>(entries: map<string, V>) returns (keys: seq<string>)
    ensures Ascending(keys)
    ensures forall key :: key in keys <==> key in entries
  {
    var remaining, unsorted: seq<string> := entries.Keys, [];
    while remaining != {}
      invariant forall key :: key in entries <==> key in remaining || key in unsorted
      decreases |remaining|
    {
      var key :| key in remaining;
      remaining := remaining - {key};
      unsorted := unsorted + [key];
    }
    SortedDistinctIsTheSet(unsorted);
    return SortedDistinct(unsorted);
  }
}

/** Facts about sequences that several components use. */
module Sequences {

  lemma Associative<T>(a: seq<T>, b: seq<T>, c: seq<T>)
    ensures (a + b) + c == a + (b + c)
  {
  }

  function Flatten<T>(parts: seq<seq<T>>): seq<T> {
    if |parts| == 0 then [] else parts[0] + Flatten(parts[1..])
  }

  function Filter<T>(s: seq<T>, keep: T -> bool): (r: seq<T>)
    ensures |r| <= |s|
  {
    if |s| == 0 then []
    else (if keep(s[0]) then [s[0]] else []) + Filter(s[1..], keep)
  }

  lemma {:induction false} FilterCounts<T>(s: seq<T>, keep: T -> bool, x: T)
    ensures multiset(Filter(s, keep))[x] == if keep(x) then multiset(s)[x] else 0
  {
    if |s| > 0 {
      FilterCounts(s[1..], keep, x);
      assert s == [s[0]] + s[1..];
    }
  }

  lemma {:induction false} FilterMeans<T>(s: seq<T>, keep: T -> bool)
    ensures forall x :: x in Filter(s, keep) <==> x in s && keep(x)
  {
    if |s| > 0 {
      FilterMeans(s[1..], keep);
      assert s == [s[0]] + s[1..];
    }
  }

  lemma SameCounts<T>(a: multiset<T>, b: multiset<T>)
    requires forall x :: a[x] == b[x]
    ensures a == b
  {
  }

  /** Filtering a rearranged list keeps the same elements, as often. */
  lemma FilterPermutes<T>(a: seq<T>, b: seq<T>, keep: T -> bool)
    requires multiset(a) == multiset(b)
    ensures multiset(Filter(a, keep)) == multiset(Filter(b, keep))
    ensures |Filter(a, keep)| == |Filter(b, keep)|
  {
    hide Filter;
    var first, second := multiset(Filter(a, keep)), multiset(Filter(b, keep));
    forall x ensures first[x] == second[x] {
      FilterCounts(a, keep, x);
      FilterCounts(b, keep, x);
    }
    SameCounts(first, second);
    assert |first| == |Filter(a, keep)| && |second| == |Filter(b, keep)|;
  }

  function Without<T>(s: seq<T>, i: nat): (r: seq<T>)
    requires i < |s|
    ensures |r| == |s| - 1
  {
    if i == 0 then s[1..] else [s[0]] + Without(s[1..], i - 1)
  }

  lemma {:induction false} WithoutRemovesOne<T>(s: seq<T>, i: nat)
    requires i < |s|
    ensures multiset(s) == multiset{s[i]} + multiset(Without(s, i))
    decreases i
  {
    assert s == [s[0]] + s[1..];
    if i > 0 {
      WithoutRemovesOne(s[1..], i - 1);
    }
  }

  /** Any element can be brought to the front. */
  lemma PullToFront<T>(s: seq<T>, x: T) returns (rest: seq<T>)
    requires x in s
    ensures multiset(s) == multiset{x} + multiset(rest)
    ensures multiset([x] + rest) == multiset(s)
  {
    var i :| 0 <= i < |s| && s[i] == x;
    rest := Without(s, i);
    WithoutRemovesOne(s, i);
  }

  function Map<T, S>(s: seq<T>, f: T -> S): (r: seq<S>)
    ensures |r| == |s|
    ensures forall i :: 0 <= i < |s| ==> r[i] == f(s[i])
  {
    if |s| == 0 then [] else [f(s[0])] + Map(s[1..], f)
  }

  lemma {:induction false} MapWithout<T, S>(s: seq<T>, i: nat, f: T -> S)
    requires i < |s|
    ensures multiset(Map(s, f)) == multiset{f(s[i])} + multiset(Map(Without(s, i), f))
    decreases i
  {
    if i > 0 {
      MapWithout(s[1..], i - 1, f);
    }
  }

  /** Mapping a rearranged list gives the same elements, as often. */
  lemma {:induction false} MapPermutes<T, S>(a: seq<T>, b: seq<T>, f: T -> S)
    requires multiset(a) == multiset(b)
    ensures multiset(Map(a, f)) == multiset(Map(b, f))
    decreases |a|
  {
    assert |multiset(a)| == |a| && |multiset(b)| == |b|;
    if |a| > 0 {
      assert a[0] in multiset(b);
      var i :| 0 <= i < |b| && b[i] == a[0];
      WithoutRemovesOne(a, 0);
      WithoutRemovesOne(b, i);
      assert Without(a, 0) == a[1..];
      assert multiset(a[1..]) == multiset(a) - multiset{a[0]};
      assert multiset(Without(b, i)) == multiset(b) - multiset{a[0]};
      MapPermutes(a[1..], Without(b, i), f);
      MapWithout(b, i, f);
    }
  }

  function Sum<T>(s: seq<T>, size: T -> nat): nat {
    if |s| == 0 then 0 else size(s[0]) + Sum(s[1..], size)
  }

  lemma {:induction false} SumWithout<T>(s: seq<T>, i: nat, size: T -> nat)
    requires i < |s|
    ensures Sum(s, size) == size(s[i]) + Sum(Without(s, i), size)
    decreases i
  {
    if i > 0 {
      SumWithout(s[1..], i - 1, size);
      assert ([s[0]] + Without(s[1..], i - 1))[1..] == Without(s[1..], i - 1);
    }
  }

  /** A total does not depend on the order. */
  lemma {:induction false} SumPermutes<T>(a: seq<T>, b: seq<T>, size: T -> nat)
    requires multiset(a) == multiset(b)
    ensures Sum(a, size) == Sum(b, size)
    decreases |a|
  {
    assert |multiset(a)| == |a| && |multiset(b)| == |b|;
    if |a| > 0 {
      assert a[0] in multiset(b);
      var i :| 0 <= i < |b| && b[i] == a[0];
      WithoutRemovesOne(a, 0);
      WithoutRemovesOne(b, i);
      assert multiset(a[1..]) == multiset(a) - multiset{a[0]};
      assert multiset(Without(b, i)) == multiset(b) - multiset{a[0]};
      SumPermutes(a[1..], Without(b, i), size);
      SumWithout(b, i, size);
    }
  }

  lemma {:induction false} FilterAppend<T>(s: seq<T>, x: T, keep: T -> bool)
    ensures Filter(s + [x], keep) == Filter(s, keep) + if keep(x) then [x] else []
  {
    if |s| > 0 {
      FilterAppend(s[1..], x, keep);
      assert (s + [x])[1..] == s[1..] + [x];
    } else {
      assert (s + [x])[1..] == [];
    }
  }
}

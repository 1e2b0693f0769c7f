/** Benchmark aggregates: the nearest-rank p95 of scripts/benchmark-phase1.py, and the last-element
    p95 and claim rule of scripts/benchmark-phase8.py. Measurements are exact numbers here. */
module NearestRank {
  import opened Ordering
  import opened Sequences
  import opened Wrappers

  datatype Summary = Summary(min: real, median: real, p95: real, max: real)

  type Sample = map<string, real>

  function AtMostReal(): (real, real) -> bool {
    (a: real, b: real) => a <= b
  }

  function Sorted(values: seq<real>): (r: seq<real>)
    ensures |r| == |values|
  {
    Sort(values, AtMostReal())
  }

  lemma SortedMeans(values: seq<real>)
    ensures multiset(Sorted(values)) == multiset(values)
    ensures forall i, j :: 0 <= i <= j < |values| ==> Sorted(values)[i] <= Sorted(values)[j]
  {
    SortSorts(values, AtMostReal());
    assert SortedBy(Sorted(values), AtMostReal());
  }

  // ---------------------------------------------------------------- p95

  /** Python's `//` on non-negative numbers. */
  function P95Index(count: nat): nat {
    var rank := (95 * count + 99) / 100;
    if rank == 0 then 0 else rank - 1
  }

  function CountAtMost(values: seq<real>, v: real): nat {
    |Filter(values, (x: real) => x <= v)|
  }

  /** At least 95 of 100 values are no larger. */
  predicate Covers95(values: seq<real>, v: real) {
    100 * CountAtMost(values, v) >= 95 * |values|
  }

  lemma P95IndexIsRank(count: nat)
    requires count > 0
    ensures P95Index(count) < count
    ensures 100 * (P95Index(count) + 1) >= 95 * count
    ensures 100 * P95Index(count) < 95 * count
  {
  }

  lemma {:induction false} CountUpTo(s: seq<real>, v: real, rank: nat)
    requires rank <= |s| && forall i :: 0 <= i < rank ==> s[i] <= v
    ensures CountAtMost(s, v) >= rank
    decreases rank
  {
    if rank > 0 {
      assert forall i :: 0 <= i < rank - 1 ==> s[1..][i] == s[i + 1];
      CountUpTo(s[1..], v, rank - 1);
    }
  }

  lemma {:induction false} CountBelow(s: seq<real>, v: real, rank: nat)
    requires rank <= |s| && forall i :: rank <= i < |s| ==> s[i] > v
    ensures CountAtMost(s, v) <= rank
    decreases |s|
  {
    if |s| > 0 {
      var less := if rank > 0 then rank - 1 else 0;
      assert forall i :: less <= i < |s| - 1 ==> s[1..][i] == s[i + 1];
      CountBelow(s[1..], v, less);
    }
  }

  /** The nearest-rank p95 is in range, is a sample, and is the least number that covers 95 percent. */
  lemma P95IsLeastCovering(values: seq<real>)
    requires |values| > 0
    ensures P95Index(|values|) < |values|
    ensures var p95 := Sorted(values)[P95Index(|values|)];
      && p95 in values
      && Covers95(values, p95)
      && forall v :: Covers95(values, v) ==> p95 <= v
  {
    hide Sorted, CountAtMost;
    var s, index := Sorted(values), P95Index(|values|);
    SortedMeans(values);
    P95IndexIsRank(|values|);
    SameElements(s, values);
    assert s[index] in s;
    hide P95Index;
    forall v ensures CountAtMost(values, v) == CountAtMost(s, v) {
      CountPermutes(values, s, v);
    }
    CountUpTo(s, s[index], index + 1);
    forall v | Covers95(values, v) ensures s[index] <= v {
      if v < s[index] {
        CountBelow(s, v, index);
      }
    }
  }

  lemma CountPermutes(a: seq<real>, b: seq<real>, v: real)
    requires multiset(a) == multiset(b)
    ensures CountAtMost(a, v) == CountAtMost(b, v)
    ensures CountAtLeast(a, v) == CountAtLeast(b, v)
  {
    FilterPermutes(a, b, (x: real) => x <= v);
    FilterPermutes(a, b, (x: real) => x >= v);
  }

  lemma SortedDoesNotDependOnOrder(values: seq<real>, values': seq<real>)
    requires multiset(values) == multiset(values')
    ensures Sorted(values) == Sorted(values')
  {
    SortSorts(values, AtMostReal());
    SortSorts(values', AtMostReal());
    SortedIsUnique(Sorted(values), Sorted(values'), AtMostReal());
  }

  /** The largest sample is the nearest-rank p95 for up to 19 samples; from 20 samples on it is not,
      for some samples of every count. */
  lemma LastIsP95ExactlyUpTo19(count: nat)
    requires count > 0
    ensures (forall values: seq<real> :: |values| == count ==> Sorted(values)[count - 1] == Sorted(values)[P95Index(count)])
       <==> count <= 19
  {
    if count >= 20 {
      assert P95Index(count) < count - 1;
      var values := seq(count, i requires 0 <= i < count => i as real);
      assert SortedBy(values, AtMostReal());
      SortIsIdentity(values);
      assert Sorted(values)[count - 1] != Sorted(values)[P95Index(count)];
    } else {
      assert P95Index(count) == count - 1;
    }
  }

  lemma {:induction false} SortIsIdentity(values: seq<real>)
    requires SortedBy(values, AtMostReal())
    ensures Sorted(values) == values
  {
    SortSorts(values, AtMostReal());
    SortedIsUnique(Sorted(values), values, AtMostReal());
  }

  // ---------------------------------------------------------------- the aggregates

  /** `statistics.median` of sorted values. */
  function Median(s: seq<real>): real
    requires |s| > 0
  {
    if |s| % 2 == 1 then s[|s| / 2] else (s[|s| / 2 - 1] + s[|s| / 2]) / 2.0
  }

  function NearestRankSummary(values: seq<real>): Summary
    requires |values| > 0
  {
    var s := Sorted(values);
    P95IndexIsRank(|values|);
    Summary(s[0], Median(s), s[P95Index(|values|)], s[|s| - 1])
  }

  function LastElementSummary(values: seq<real>): Summary
    requires |values| > 0
  {
    var s := Sorted(values);
    Summary(s[0], Median(s), s[|s| - 1], s[|s| - 1])
  }

  /** Within the sample counts it accepts, the phase 8 report's p95 is the nearest-rank one, and
      neither report depends on the order of the samples. */
  lemma ReportsAgree(values: seq<real>, values': seq<real>)
    requires 2 <= |values| <= 10 && multiset(values) == multiset(values')
    ensures |values'| == |values|
    ensures LastElementSummary(values') == NearestRankSummary(values) == NearestRankSummary(values')
  {
    SameLength(values, values');
    SortedDoesNotDependOnOrder(values, values');
    LastIsP95ExactlyUpTo19(|values|);
  }

  function CountAtLeast(values: seq<real>, v: real): nat {
    |Filter(values, (x: real) => x >= v)|
  }

  /** The least number with at least half of the samples at or below it. */
  ghost predicate IsLowerMiddle(values: seq<real>, v: real) {
    2 * CountAtMost(values, v) >= |values| && forall x :: 2 * CountAtMost(values, x) >= |values| ==> v <= x
  }

  /** The greatest number with at least half of the samples at or above it. */
  ghost predicate IsUpperMiddle(values: seq<real>, v: real) {
    2 * CountAtLeast(values, v) >= |values| && forall x :: 2 * CountAtLeast(values, x) >= |values| ==> x <= v
  }

  /** The median lies halfway between the lower and the upper middle. */
  lemma MedianIsInTheMiddle(values: seq<real>) returns (lower: real, upper: real)
    requires |values| > 0
    ensures IsLowerMiddle(values, lower) && IsUpperMiddle(values, upper)
    ensures lower in values && upper in values
    ensures 2.0 * Median(Sorted(values)) == lower + upper
  {
    hide Sorted, CountAtMost, CountAtLeast;
    var s := Sorted(values);
    SortedMeans(values);
    SameElements(s, values);
    var low, high := (|s| + 1) / 2 - 1, |s| / 2;
    lower, upper := s[low], s[high];
    assert s[low] in s && s[high] in s;
    forall v ensures CountAtMost(values, v) == CountAtMost(s, v) && CountAtLeast(values, v) == CountAtLeast(s, v) {
      CountPermutes(values, s, v);
    }
    CountUpTo(s, lower, low + 1);
    CountFrom(s, upper, high);
    forall x | 2 * CountAtMost(values, x) >= |values| ensures lower <= x {
      if x < lower {
        CountBelow(s, x, low);
      }
    }
    forall x | 2 * CountAtLeast(values, x) >= |values| ensures x <= upper {
      if x > upper {
        CountAbove(s, x, high + 1);
      }
    }
  }

  lemma {:induction false} CountFrom(s: seq<real>, v: real, from: nat)
    requires from <= |s| && forall i :: from <= i < |s| ==> s[i] >= v
    ensures CountAtLeast(s, v) >= |s| - from
    decreases |s|
  {
    if |s| > 0 {
      var less := if from > 0 then from - 1 else 0;
      assert forall i :: less <= i < |s| - 1 ==> s[1..][i] == s[i + 1];
      CountFrom(s[1..], v, less);
    }
  }

  lemma {:induction false} CountAbove(s: seq<real>, v: real, from: nat)
    requires from <= |s| && forall i :: 0 <= i < from ==> s[i] < v
    ensures CountAtLeast(s, v) <= |s| - from
    decreases |s|
  {
    if |s| > 0 {
      var less := if from > 0 then from - 1 else 0;
      assert forall i :: 0 <= i < less ==> s[1..][i] == s[i + 1];
      CountAbove(s[1..], v, less);
    }
  }

  function Column(samples: seq<Sample>, field: string): (values: seq<real>)
    requires forall i :: 0 <= i < |samples| ==> field in samples[i]
    ensures |values| == |samples|
  {
    seq(|samples|, i requires 0 <= i < |samples| => samples[i][field])
  }

  predicate HasField(samples: seq<Sample>, field: string) {
    forall i :: 0 <= i < |samples| ==> field in samples[i]
  }

  /** `_aggregate` and `aggregate` over one tool's samples: a missing field or an empty list of
      samples is an error. */
  method Aggregate(samples: seq<Sample>, fields: seq<string>, nearestRank: bool) returns (r: Option<map<string, Summary>>)
    ensures r.Some? <==> |fields| == 0 || (|samples| > 0 && forall field :: field in fields ==> HasField(samples, field))
    ensures r.Some? ==> forall field :: field in r.value <==> field in fields
    ensures r.Some? ==> forall field :: field in fields && HasField(samples, field) && |samples| > 0 ==>
      r.value[field] == if nearestRank then NearestRankSummary(Column(samples, field))
                        else LastElementSummary(Column(samples, field))
  {
    hide Median, P95Index, Sorted;
    var result: map<string, Summary> := map[];
    for i := 0 to |fields|
      invariant i > 0 ==> |samples| > 0
      invariant forall field :: field in result <==> field in fields[..i]
      invariant forall j :: 0 <= j < i ==> HasField(samples, fields[j])
      invariant forall field :: field in fields[..i] && HasField(samples, field) && |samples| > 0 ==>
        result[field] == if nearestRank then NearestRankSummary(Column(samples, field))
                         else LastElementSummary(Column(samples, field))
    {
      var field := fields[i];
      assert field in fields;
      if |samples| == 0 || !HasField(samples, field) {
        return None;
      }
      var values := Column(samples, field);
      assert fields[..i + 1] == fields[..i] + [field];
      result := result[field := if nearestRank then NearestRankSummary(values) else LastElementSummary(values)];
    }
    assert fields[..|fields|] == fields;
    return Some(result);
  }

  // ---------------------------------------------------------------- the claim

  /** The rule of `run` (lines 273-276), for a positive median. */
  predicate Claimed(rust: Summary, other: Summary)
    requires other.median > 0.0
  {
    100.0 * (other.median - rust.median) / other.median >= 10.0 && rust.max < other.min
  }

  /** An improvement is claimed exactly when every sample is faster than every sample of the other
      tool and the median is at least a tenth lower. */
  lemma ClaimedExactlyWhenAllFaster(rust: seq<real>, other: seq<real>)
    requires |rust| > 0 && |other| > 0 && LastElementSummary(other).median > 0.0
    ensures Claimed(LastElementSummary(rust), LastElementSummary(other)) <==>
      && (forall x, y :: x in rust && y in other ==> x < y)
      && 10.0 * LastElementSummary(rust).median <= 9.0 * LastElementSummary(other).median
  {
    hide Median, Sorted;
    ExtremesMean(rust);
    ExtremesMean(other);
    Ratio(LastElementSummary(rust).median, LastElementSummary(other).median);
  }

  lemma Ratio(rust: real, other: real)
    requires other > 0.0
    ensures 100.0 * (other - rust) / other >= 10.0 <==> 10.0 * rust <= 9.0 * other
  {
    var quotient := 100.0 * (other - rust) / other;
    assert quotient * other == 100.0 * (other - rust);
    if quotient >= 10.0 {
      assert quotient * other >= 10.0 * other;
    } else {
      assert quotient * other < 10.0 * other;
    }
  }

  lemma ExtremesMean(values: seq<real>)
    requires |values| > 0
    ensures var s := Sorted(values);
      && s[0] in values && s[|s| - 1] in values
      && forall x :: x in values ==> s[0] <= x <= s[|s| - 1]
  {
    hide Sorted;
    var s := Sorted(values);
    SortedMeans(values);
    SameElements(s, values);
    assert s[0] in s && s[|s| - 1] in s;
    forall x | x in values ensures s[0] <= x <= s[|s| - 1] {
      assert x in s;
      var i :| 0 <= i < |s| && s[i] == x;
    }
  }

  /** Both summaries hold the least, the middle and the largest sample; their p95 is the least number that
      covers 95 percent, or the largest sample. */
  lemma SummariesMean(values: seq<real>) returns (lower: real, upper: real)
    requires |values| > 0
    ensures IsLowerMiddle(values, lower) && IsUpperMiddle(values, upper)
    ensures forall summary :: summary in {NearestRankSummary(values), LastElementSummary(values)} ==>
      && summary.min in values && summary.max in values
      && (forall x :: x in values ==> summary.min <= x <= summary.max)
      && 2.0 * summary.median == lower + upper
    ensures var p95 := NearestRankSummary(values).p95;
      p95 in values && Covers95(values, p95) && forall v :: Covers95(values, v) ==> p95 <= v
    ensures LastElementSummary(values).p95 == LastElementSummary(values).max
  {
    hide Sorted, Covers95, Median, IsLowerMiddle, IsUpperMiddle;
    lower, upper := MedianIsInTheMiddle(values);
    ExtremesMean(values);
    P95IsLeastCovering(values);
  }
}

/**
 * The finalisation and ranking passes of the Dowdall combiner: each
 * accumulated domain becomes an entry with its weighted mean score, its
 * stability bonus and its composite score; the entries are sorted by
 * descending composite score, ranked 1, 2, 3, ... and cut to the target size.
 */
module Composite {
  import opened Wrappers
  import Sorting
  import opened Accumulation

  function Sum(ws: seq<real>): real {
    if ws == [] then 0.0 else ws[0] + Sum(ws[1..])
  }

  /** `sum(s * w for s, w in zip(scores, weights))`; `zip` stops at the shorter list. */
  function WeightedSum(scores: seq<real>, weights: seq<real>): real {
    if scores == [] || weights == [] then 0.0
    else scores[0] * weights[0] + WeightedSum(scores[1..], weights[1..])
  }

  /** The weighted mean of the scores, or 0 when the total weight is not positive. */
  function WeightedMean(scores: seq<real>, weights: seq<real>): real {
    var total := Sum(weights);
    if total > 0.0 then WeightedSum(scores, weights) / total else 0.0
  }

  /** 10% more for every appearance after the first, without a cap. */
  function StabilityBonus(appearances: int): (b: real)
    ensures appearances >= 1 ==> b >= 1.0
  {
    1.0 + (appearances - 1) as real * 0.1
  }

  /** One row of the composite table before ranking. */
  datatype Entry = Entry(domain: string, composite: real, appearances: int, avg: real)

  /** The entry a domain's accumulator produces. */
  function MakeEntry(d: string, a: Acc): Entry {
    var avg := WeightedMean(a.scores, a.weights);
    Entry(d, avg * StabilityBonus(a.appearances), a.appearances, avg)
  }

  /** The entries for the first keys of the map, skipping accumulators with no appearance. */
  function FinalisedFrom(st: Accumulators, keys: seq<string>): seq<Entry>
    requires forall k :: 0 <= k < |keys| ==> keys[k] in st.byDomain
  {
    if keys == [] then []
    else
      var d := keys[|keys| - 1];
      FinalisedFrom(st, keys[..|keys| - 1])
        + (if st.byDomain[d].appearances == 0 then [] else [MakeEntry(d, st.byDomain[d])])
  }

  /** The finalisation loop's result: one entry per key of the map, in insertion order. */
  function Finalised(st: Accumulators): seq<Entry>
    requires Valid(st)
  {
    FinalisedFrom(st, st.order)
  }

  /** The finalisation loop as the combiner runs it, appending to `composite_data`. */
  method Finalise(st: Accumulators) returns (entries: seq<Entry>)
    requires Valid(st)
    ensures entries == Finalised(st)
    ensures |entries| == |st.order|
    ensures forall k :: 0 <= k < |entries| ==> entries[k] == MakeEntry(st.order[k], st.byDomain[st.order[k]])
  {
    entries := [];
    var i := 0;
    while i < |st.order|
      invariant 0 <= i <= |st.order|
      invariant entries == FinalisedFrom(st, st.order[..i])
    {
      var d := st.order[i];
      assert d in st.order;
      var data := st.byDomain[d];
      if data.appearances != 0 {
        entries := entries + [MakeEntry(d, data)];
      }
      FinalisedFromStep(st, st.order, i);
      i := i + 1;
    }
    assert st.order[..|st.order|] == st.order;
    FinalisedShape(st, st.order);
  }

  /** Finalising one more key appends at most that key's entry. */
  lemma FinalisedFromStep(st: Accumulators, keys: seq<string>, i: int)
    requires 0 <= i < |keys|
    requires forall k :: 0 <= k < |keys| ==> keys[k] in st.byDomain
    ensures FinalisedFrom(st, keys[..i + 1])
         == FinalisedFrom(st, keys[..i])
          + (if st.byDomain[keys[i]].appearances == 0 then [] else [MakeEntry(keys[i], st.byDomain[keys[i]])])
  {
    assert keys[..i + 1][..i] == keys[..i];
    assert keys[..i + 1][i] == keys[i];
  }

  /** Under the map invariant no key is skipped: entry k belongs to the k-th key. */
  lemma {:induction false} FinalisedShape(st: Accumulators, keys: seq<string>)
    requires Valid(st)
    requires forall k :: 0 <= k < |keys| ==> keys[k] in st.byDomain
    ensures |FinalisedFrom(st, keys)| == |keys|
    ensures forall k :: 0 <= k < |keys| ==> FinalisedFrom(st, keys)[k] == MakeEntry(keys[k], st.byDomain[keys[k]])
  {
    if keys != [] {
      FinalisedShape(st, keys[..|keys| - 1]);
    }
  }

  function DescendingKey(e: Entry): real { -e.composite }

  function EntryDomain(e: Entry): string { e.domain }

  /** `sort_values('composite_score', ascending=False)`: non-increasing composite scores, same entries. */
  function SortDescending(entries: seq<Entry>): (r: seq<Entry>)
    ensures multiset(r) == multiset(entries)
    ensures forall i, j :: 0 <= i < j < |r| ==> r[i].composite >= r[j].composite
  {
    var r := Sorting.SortByKey(entries, DescendingKey);
    assert forall i, j :: 0 <= i < j < |r| ==> DescendingKey(r[i]) <= DescendingKey(r[j]);
    r
  }

  /** A row of the output table: an entry and the rank it was given. */
  datatype RankedEntry = RankedEntry(rank: int, entry: Entry)

  /** `composite_df['rank'] = range(1, len + 1)`: the i-th row gets rank i + 1 and keeps its other columns. */
  function AssignRanks(s: seq<Entry>): (r: seq<RankedEntry>)
    ensures |r| == |s|
    ensures forall i :: 0 <= i < |r| ==> r[i].rank == i + 1 && r[i].entry == s[i]
  {
    seq(|s|, i requires 0 <= i < |s| => RankedEntry(i + 1, s[i]))
  }

  /** Sort, rank, then keep `head(targetSize)`. */
  function RankAndTruncate(entries: seq<Entry>, targetSize: int): seq<RankedEntry> {
    Sorting.Head(AssignRanks(SortDescending(entries)), targetSize)
  }

  /** No valid record at all: the empty table has no composite score column to sort by. */
  datatype CombineError = NoData

  /**
   * What `combine_lists_with_dowdall` returns, or the error it raises.  The
   * caller passes `targetSize`; the source's default of 1,000,000 is the
   * caller's choice here.
   */
  function Combined(sources: seq<Source>, targetSize: int): Result<seq<RankedEntry>, CombineError> {
    var entries := Finalised(AccumulateAll(sources));
    if entries == [] then Failure(NoData) else Success(RankAndTruncate(entries, targetSize))
  }

  /** Ranks are 1..n without gaps, composite scores never increase, and no domain repeats. */
  ghost predicate RankedOutput(out: seq<RankedEntry>) {
    && (forall i :: 0 <= i < |out| ==> out[i].rank == i + 1)
    && (forall i, j :: 0 <= i < j < |out| ==> out[i].entry.composite >= out[j].entry.composite)
    && (forall i, j :: 0 <= i < j < |out| ==> out[i].entry.domain != out[j].entry.domain)
  }

  /** `e` is the entry that the samples `ss` of its domain produce. */
  ghost predicate Summarises(e: Entry, ss: seq<Sample>) {
    ss != [] && e == MakeEntry(e.domain, Acc(Scores(ss), Weights(ss), |ss|))
  }

  /** Entry k of the finalised list belongs to the k-th key and summarises that domain's samples. */
  lemma FinalisedEntry(sources: seq<Source>, k: int)
    requires 0 <= k < |AccumulateAll(sources).order|
    ensures |Finalised(AccumulateAll(sources))| == |AccumulateAll(sources).order|
    ensures Finalised(AccumulateAll(sources))[k].domain == AccumulateAll(sources).order[k]
    ensures Summarises(Finalised(AccumulateAll(sources))[k], SamplesFor(sources, AccumulateAll(sources).order[k]))
  {
    var st := AccumulateAll(sources);
    FinalisedShape(st, st.order);
    var d := st.order[k];
    assert d in st.byDomain;
    AccumulateTracks(sources, d);
  }

  /** One finalised entry per key. */
  lemma FinalisedCount(st: Accumulators)
    requires Valid(st)
    ensures |Finalised(st)| == |st.order|
  {
    FinalisedShape(st, st.order);
  }

  /** The finalised entries name each domain once. */
  lemma FinalisedDistinct(st: Accumulators)
    requires Valid(st)
    ensures Sorting.DistinctBy(Finalised(st), EntryDomain)
  {
    FinalisedShape(st, st.order);
  }

  /** Sorting, ranking and truncating distinct entries yields a ranked output of the expected length. */
  lemma RankedFromEntries(entries: seq<Entry>, targetSize: int)
    requires Sorting.DistinctBy(entries, EntryDomain)
    ensures RankedOutput(RankAndTruncate(entries, targetSize))
    ensures targetSize >= 0 ==> |RankAndTruncate(entries, targetSize)| == Sorting.Min(targetSize, |entries|)
  {
    var sorted := SortDescending(entries);
    Sorting.SortKeepsDistinct(entries, DescendingKey, EntryDomain);
    var ranked := AssignRanks(sorted);
    var out := Sorting.Head(ranked, targetSize);
    assert forall i :: 0 <= i < |out| ==> out[i] == ranked[i];
  }

  /** Each output row holds an input entry, and every input entry is kept when nothing is cut. */
  lemma RankedKeepsEntries(entries: seq<Entry>, targetSize: int)
    ensures forall i :: 0 <= i < |RankAndTruncate(entries, targetSize)| ==>
      RankAndTruncate(entries, targetSize)[i].entry in entries
    ensures targetSize >= |entries| ==> forall e :: e in entries ==>
      exists i :: 0 <= i < |RankAndTruncate(entries, targetSize)| && RankAndTruncate(entries, targetSize)[i].entry == e
  {
    var sorted := SortDescending(entries);
    var ranked := AssignRanks(sorted);
    var out := Sorting.Head(ranked, targetSize);
    assert out == RankAndTruncate(entries, targetSize);
    forall i | 0 <= i < |out| ensures out[i].entry in entries {
      assert out[i] == ranked[i];
      assert sorted[i] in multiset(entries);
    }
    if targetSize >= |entries| {
      assert out == ranked;
      forall e | e in entries ensures exists i :: 0 <= i < |out| && out[i].entry == e {
        assert e in multiset(sorted);
        var i :| 0 <= i < |sorted| && sorted[i] == e;
        assert out[i].entry == e;
      }
    }
  }

  /**
   * `head(targetSize)` after the descending sort keeps the best entries: an
   * input entry that was cut scores no more than any entry that was kept.
   */
  lemma TruncationKeepsTop(entries: seq<Entry>, targetSize: int)
    ensures forall e, i ::
      (e in entries && e !in Entries(RankAndTruncate(entries, targetSize)) &&
       0 <= i < |RankAndTruncate(entries, targetSize)|) ==>
      e.composite <= RankAndTruncate(entries, targetSize)[i].entry.composite
  {
    var sorted := SortDescending(entries);
    var ranked := AssignRanks(sorted);
    var out := Sorting.Head(ranked, targetSize);
    assert out == RankAndTruncate(entries, targetSize);
    forall e, i | e in entries && e !in Entries(out) && 0 <= i < |out|
      ensures e.composite <= out[i].entry.composite
    {
      assert e in multiset(sorted);
      var m :| 0 <= m < |sorted| && sorted[m] == e;
      assert out[i] == ranked[i];
    }
  }

  /** The composite score the samples of `d` produce. */
  ghost function DomainComposite(sources: seq<Source>, d: string): real {
    var ss := SamplesFor(sources, d);
    MakeEntry(d, Acc(Scores(ss), Weights(ss), |ss|)).composite
  }

  /**
   * The output holds the top domains: a domain with samples that the target
   * size cut off has a composite score no larger than any listed one.
   */
  lemma CombinedKeepsTop(sources: seq<Source>, targetSize: int, d: string)
    requires Combined(sources, targetSize).Success?
    requires SamplesFor(sources, d) != [] && d !in Domains(Combined(sources, targetSize).value)
    ensures forall i :: 0 <= i < |Combined(sources, targetSize).value| ==>
      DomainComposite(sources, d) <= Combined(sources, targetSize).value[i].entry.composite
  {
    var entries := Finalised(AccumulateAll(sources));
    var out := RankAndTruncate(entries, targetSize);
    assert Combined(sources, targetSize).value == out;
    var k := EntryOfDomain(sources, d);
    NotListed(out, entries[k]);
    TruncationKeepsTop(entries, targetSize);
  }

  /** A domain with samples has a finalised entry, and that entry carries the composite its samples produce. */
  lemma EntryOfDomain(sources: seq<Source>, d: string) returns (k: int)
    requires SamplesFor(sources, d) != []
    ensures 0 <= k < |Finalised(AccumulateAll(sources))|
    ensures Finalised(AccumulateAll(sources))[k].domain == d
    ensures Finalised(AccumulateAll(sources))[k].composite == DomainComposite(sources, d)
  {
    var st := AccumulateAll(sources);
    AccumulateTracks(sources, d);
    k :| 0 <= k < |st.order| && st.order[k] == d;
    FinalisedEntry(sources, k);
  }

  /** An entry whose domain is not listed is not among the output entries. */
  lemma NotListed(out: seq<RankedEntry>, e: Entry)
    requires e.domain !in Domains(out)
    ensures e !in Entries(out)
  {
    forall i | 0 <= i < |out| ensures Entries(out)[i] != e {
      assert Domains(out)[i] in Domains(out);
    }
  }

  /** The combiner fails exactly when no record of any source has a positive rank. */
  lemma CombinedFailsOnlyWithoutData(sources: seq<Source>, targetSize: int)
    ensures Combined(sources, targetSize).Failure? <==> PositiveRanksIn(sources) == 0
  {
    var st := AccumulateAll(sources);
    FinalisedCount(st);
    AccumulateEmpty(sources);
  }

  /**
   * A successful output is ranked 1..n with non-increasing composite scores
   * and distinct domains, and has as many rows as the target size allows, up
   * to the number of distinct domains.
   */
  lemma CombinedIsRanked(sources: seq<Source>, targetSize: int)
    requires Combined(sources, targetSize).Success?
    ensures RankedOutput(Combined(sources, targetSize).value)
    ensures targetSize >= 0 ==>
      |Combined(sources, targetSize).value| == Sorting.Min(targetSize, |AccumulateAll(sources).byDomain|)
  {
    var st := AccumulateAll(sources);
    FinalisedCount(st);
    FinalisedDistinct(st);
    RankedFromEntries(Finalised(st), targetSize);
  }

  /** Every output row is what the samples of its domain produce. */
  lemma CombinedSummarisesSamples(sources: seq<Source>, targetSize: int)
    requires Combined(sources, targetSize).Success?
    ensures forall e :: e in Entries(Combined(sources, targetSize).value) ==> Summarises(e, SamplesFor(sources, e.domain))
  {
    var st := AccumulateAll(sources);
    var entries := Finalised(st);
    FinalisedCount(st);
    RankedKeepsEntries(entries, targetSize);
    var out := RankAndTruncate(entries, targetSize);
    assert Combined(sources, targetSize).value == out;
    forall e | e in Entries(out) ensures Summarises(e, SamplesFor(sources, e.domain)) {
      var i :| 0 <= i < |out| && Entries(out)[i] == e;
      assert e in entries;
      var k :| 0 <= k < |entries| && entries[k] == e;
      FinalisedEntry(sources, k);
    }
  }

  /** When the target size is no smaller than the number of domains, every domain with a sample is listed. */
  lemma CombinedListsEveryDomain(sources: seq<Source>, targetSize: int, d: string)
    requires Combined(sources, targetSize).Success?
    requires targetSize >= |AccumulateAll(sources).byDomain|
    requires SamplesFor(sources, d) != []
    ensures d in Domains(Combined(sources, targetSize).value)
  {
    var st := AccumulateAll(sources);
    var entries := Finalised(st);
    FinalisedCount(st);
    RankedKeepsEntries(entries, targetSize);
    var out := RankAndTruncate(entries, targetSize);
    AccumulateTracks(sources, d);
    var k :| 0 <= k < |st.order| && st.order[k] == d;
    FinalisedEntry(sources, k);
    assert entries[k] in entries;
    var i :| 0 <= i < |out| && out[i].entry == entries[k];
    assert Domains(out)[i] == d;
  }

  /** The entries of the output rows, in output order. */
  function Entries(out: seq<RankedEntry>): (r: seq<Entry>)
    ensures |r| == |out| && forall i :: 0 <= i < |out| ==> r[i] == out[i].entry
  {
    seq(|out|, i requires 0 <= i < |out| => out[i].entry)
  }

  /** The domain column of the output. */
  function Domains(out: seq<RankedEntry>): (r: seq<string>)
    ensures |r| == |out| && forall i :: 0 <= i < |out| ==> r[i] == out[i].entry.domain
  {
    seq(|out|, i requires 0 <= i < |out| => out[i].entry.domain)
  }

  /** The whole combiner as it runs: both loops, then sort, rank and truncate. */
  method CombineListsWithDowdall(sources: seq<Source>, targetSize: int)
    returns (result: Result<seq<RankedEntry>, CombineError>)
    ensures result == Combined(sources, targetSize)
    ensures result.Failure? <==> PositiveRanksIn(sources) == 0
    ensures result.Success? ==> RankedOutput(result.value)
    ensures result.Success? && targetSize >= 0 ==>
      |result.value| == Sorting.Min(targetSize, |AccumulateAll(sources).byDomain|)
    ensures result.Success? ==>
      forall e :: e in Entries(result.value) ==> Summarises(e, SamplesFor(sources, e.domain))
    ensures result.Success? ==> forall d, i ::
      SamplesFor(sources, d) != [] && d !in Domains(result.value) && 0 <= i < |result.value| ==>
      DomainComposite(sources, d) <= result.value[i].entry.composite
  {
    var st := Accumulate(sources);
    var entries := Finalise(st);
    CombinedFailsOnlyWithoutData(sources, targetSize);
    if entries == [] {
      return Failure(NoData);
    }
    result := Success(RankAndTruncate(entries, targetSize));
    CombinedIsRanked(sources, targetSize);
    CombinedSummarisesSamples(sources, targetSize);
    forall d | SamplesFor(sources, d) != [] && d !in Domains(result.value) {
      CombinedKeepsTop(sources, targetSize, d);
    }
  }

  /*
   * The scoring formulas.
   */

  lemma {:induction false} SumPositive(ws: seq<real>)
    requires ws != [] && forall i :: 0 <= i < |ws| ==> ws[i] > 0.0
    ensures Sum(ws) > 0.0
  {
    if |ws| > 1 {
      SumPositive(ws[1..]);
    }
  }

  /** Every score lies in [lo, hi] and every weight is non-negative, pair by pair. */
  ghost predicate BoundedPairs(scores: seq<real>, weights: seq<real>, lo: real, hi: real) {
    |scores| == |weights| &&
    (scores != [] ==> lo <= scores[0] <= hi && weights[0] >= 0.0 && BoundedPairs(scores[1..], weights[1..], lo, hi))
  }

  lemma {:induction false} BoundedPairsOf(scores: seq<real>, weights: seq<real>, lo: real, hi: real)
    requires |scores| == |weights|
    requires forall i :: 0 <= i < |weights| ==> weights[i] >= 0.0
    requires forall i :: 0 <= i < |scores| ==> lo <= scores[i] <= hi
    ensures BoundedPairs(scores, weights, lo, hi)
  {
    if scores != [] {
      var ss, ws := scores[1..], weights[1..];
      assert forall i :: 0 <= i < |ws| ==> ws[i] == weights[i + 1] && ss[i] == scores[i + 1];
      BoundedPairsOf(ss, ws, lo, hi);
    }
  }

  /** Helper for `WeightedSumBetween`: the same bound, by induction over `BoundedPairs`. */
  lemma {:induction false} WeightedSumBounded(scores: seq<real>, weights: seq<real>, lo: real, hi: real)
    requires BoundedPairs(scores, weights, lo, hi)
    ensures lo * Sum(weights) <= WeightedSum(scores, weights) <= hi * Sum(weights)
  {
    if scores != [] {
      var ss, ws := scores[1..], weights[1..];
      WeightedSumBounded(ss, ws, lo, hi);
      assert Sum(weights) == weights[0] + Sum(ws);
      assert WeightedSum(scores, weights) == scores[0] * weights[0] + WeightedSum(ss, ws);
      BoundsAddUp(lo, hi, scores[0], weights[0], Sum(ws), WeightedSum(ss, ws), Sum(weights), WeightedSum(scores, weights));
    }
  }

  /** With non-negative weights and scores in [lo, hi], the weighted sum lies between lo and hi times the total weight. */
  lemma WeightedSumBetween(scores: seq<real>, weights: seq<real>, lo: real, hi: real)
    requires |scores| == |weights|
    requires forall i :: 0 <= i < |weights| ==> weights[i] >= 0.0
    requires forall i :: 0 <= i < |scores| ==> lo <= scores[i] <= hi
    ensures lo * Sum(weights) <= WeightedSum(scores, weights) <= hi * Sum(weights)
  {
    BoundedPairsOf(scores, weights, lo, hi);
    WeightedSumBounded(scores, weights, lo, hi);
  }

  /** One more term `s0 * w0`, with `s0` in [lo, hi], keeps a weighted sum between its bounds. */
  lemma BoundsAddUp(lo: real, hi: real, s0: real, w0: real, t: real, r: real, total: real, sum: real)
    requires w0 >= 0.0 && lo <= s0 <= hi && lo * t <= r <= hi * t
    requires total == w0 + t && sum == s0 * w0 + r
    ensures lo * total <= sum <= hi * total
  {
    assert (s0 - lo) * w0 >= 0.0;
    assert (hi - s0) * w0 >= 0.0;
    assert lo * total == lo * w0 + lo * t;
    assert hi * total == hi * w0 + hi * t;
  }

  /**
   * With positive weights the weighted mean lies between any lower and any
   * upper bound of the scores, in particular between their minimum and maximum.
   */
  lemma MeanBetweenBounds(scores: seq<real>, weights: seq<real>, lo: real, hi: real)
    requires |scores| == |weights| && scores != []
    requires forall i :: 0 <= i < |weights| ==> weights[i] > 0.0
    requires forall i :: 0 <= i < |scores| ==> lo <= scores[i] <= hi
    ensures lo <= WeightedMean(scores, weights) <= hi
  {
    SumPositive(weights);
    WeightedSumBetween(scores, weights, lo, hi);
    var t, m := Sum(weights), WeightedMean(scores, weights);
    assert m == WeightedSum(scores, weights) / t;
    assert m * t == WeightedSum(scores, weights);
    assert (m - lo) * t >= 0.0;
    assert (hi - m) * t >= 0.0;
  }

  /** A single appearance earns no bonus: the composite score is the mean score. */
  lemma SingleAppearanceNoBonus(d: string, a: Acc)
    requires a.appearances == 1
    ensures MakeEntry(d, a).composite == MakeEntry(d, a).avg
  {
  }

  /** For a fixed positive mean score, more appearances give a strictly higher composite score. */
  lemma CompositeGrowsWithAppearances(avg: real, n: int, m: int)
    requires avg > 0.0 && n < m
    ensures avg * StabilityBonus(n) < avg * StabilityBonus(m)
  {
    assert StabilityBonus(m) - StabilityBonus(n) == (m - n) as real * 0.1;
    assert avg * (StabilityBonus(m) - StabilityBonus(n)) > 0.0;
  }

  /** One source, rank R, any positive weight: the composite score is 1/R. */
  lemma SingleSourceComposite(r: int, w: real)
    requires r > 0 && w > 0.0
    ensures MakeEntry("d", Acc([1.0 / r as real], [w], 1)).composite == 1.0 / r as real
  {
    assert Sum([w]) == w;
    assert WeightedSum([1.0 / r as real], [w]) == (1.0 / r as real) * w;
  }

  /** Rank 1 in two sources of weights 1 and 2: mean 1, bonus 1.1, composite 1.1. */
  lemma TwoSourcesAtRankOne()
    ensures MakeEntry("d", Acc([1.0, 1.0], [1.0, 2.0], 2)) == Entry("d", 1.1, 2, 1.0)
  {
    assert Sum([1.0, 2.0]) == 3.0;
    assert WeightedSum([1.0, 1.0], [1.0, 2.0]) == 3.0;
  }
}

# Composite top-1M domain list: Dowdall fusion, modelled in Dafny

`generate_composite_top1m.py` downloads several public "top domains" lists
and fuses them into one ranked list. This project models the core of that
fusion:

- **Cleaning one source** (`cleaning.dfy`). The parsed `(rank, domain)` rows
  of a source are cut to the source's optional limit with pandas `head`. Each
  domain is stripped and lowercased. Rows with an NA, an empty domain or a
  non-positive rank are dropped. The survivors are sorted by ascending rank.
- **Dowdall scoring** (`dowdall.dfy`). A rank scores `1/rank`. A missing or
  non-positive rank scores 0.
- **Accumulation** (`accumulate.dfy`). For every record of every source, in
  order, the domain's accumulator gets the record's score, the source's
  weight and one more appearance. Python's `defaultdict` is modelled as a map
  plus the sequence of its keys in insertion order.
  - `Accumulate` is the loop itself.
  - `AccumulateAll` is the specification `Accumulate` is proved against.
  - `SamplesFor` is an independent reference: every (score, weight) pair of a
    domain, listed source by source.
- **Finalising and ranking** (`composite.dfy`).
  - For each domain: a weighted mean of its scores, multiplied by the
    stability bonus `1 + (appearances - 1) * 0.1`.
  - The entries are sorted by descending composite score, ranked 1, 2, …,
    and cut to the target size.
  - With no data at all, the sort fails (pandas raises `KeyError` on an empty
    frame). The model returns `Failure(NoData)`.
- **A worked example** (`worked_example.dfy`). Source A (weight 1) ranks
  a.com first and b.com second; source B (weight 2) ranks them the other
  way round. The model puts b.com first with composite 11/12 and a.com second
  with 11/15.

All scores are exact `real`s. `wrappers.dfy` holds `Option` and `Result`;
`sorting.dfy` holds the stable sort, `head` and `Min`, used by both stages.

## Model

| member | source | states |
|---|---|---|
| Dowdall.DowdallScore | generate_composite_top1m.py:148-156 | A missing or non-positive rank scores 0. A positive rank scores exactly its reciprocal (`score * rank == 1`). Every score lies in [0, 1]. |
| Dowdall.ScoreIgnoresListSize | generate_composite_top1m.py:148-156 | The list-size argument never changes the score. |
| Dowdall.ScoreStrictlyDecreasing | generate_composite_top1m.py:154-156 | For positive ranks `r1 < r2`, the score of `r2` is positive and strictly below the score of `r1`. |
| Sorting.Insert | generate_composite_top1m.py:137 | The result is the input plus the new element, as a multiset, one element longer. |
| Sorting.InsertKeepsSorted | generate_composite_top1m.py:137 | Inserting into a sorted sequence keeps it sorted. |
| Sorting.SortByKey | generate_composite_top1m.py:137 | The result is a permutation (equal multiset) of the input, in non-decreasing key order. |
| Sorting.SortKeepsDistinct | generate_composite_top1m.py:213 | Sorting keeps elements distinct on any column they were distinct on. |
| Sorting.Head | generate_composite_top1m.py:128 | `head(n)` returns a prefix. For `n >= 0` its length is `min(n, len)`. For negative `n` it drops the last `-n` rows. |
| Cleaning.SkipSpaces | generate_composite_top1m.py:131 | The index returned is the first one at or after the start that holds no white space; everything skipped is white space. |
| Cleaning.TrimmedEnd | generate_composite_top1m.py:131 | The end returned cuts off exactly the trailing white space: everything cut is white space and the last kept character is not. |
| Cleaning.Strip | generate_composite_top1m.py:131 | The stripped domain neither starts nor ends with white space. |
| Cleaning.StripCutsOnlySpace | generate_composite_top1m.py:131 | `strip()` keeps one contiguous slice of its input. Everything cut before and after that slice is white space. |
| Cleaning.LowerChar | generate_composite_top1m.py:131 | An ASCII capital becomes its small letter (code point plus 32). Every other character is unchanged. |
| Cleaning.Lower | generate_composite_top1m.py:131 | Lowercasing keeps the length. Each ASCII capital becomes its small letter (code point plus 32), and every other character stays as it was. No upper-case letter is left. |
| Cleaning.Normalize | generate_composite_top1m.py:131 | Normalising keeps the rank and NA-ness. A present domain becomes exactly `Lower(Strip(domain))`, so `StripCutsOnlySpace` and `Lower` pin down its content. A non-empty normalised domain is trimmed and lower case. |
| Cleaning.Survives | generate_composite_top1m.py:132-134 | Definition of the three filters (`dropna`, non-empty domain, positive rank). `CleanRowsMembers` and `CleanTakesFromLimitedPrefix` state what it keeps. |
| Cleaning.CleanRows | generate_composite_top1m.py:131-134 | Every kept record has a positive rank and a non-empty, trimmed, lower-case domain. `CleanRowsMembers` gives its members and `CleanRowsCounts` their multiplicities. |
| Cleaning.CleanRowsMembers | generate_composite_top1m.py:131-134 | A record is kept exactly when some input row, once normalised, survives the NA, empty-domain and rank filters and becomes that record. |
| Cleaning.Taken | generate_composite_top1m.py:127-128 | The rows taken are a prefix of the input. Without a limit they are every row. With a non-negative limit there are `min(limit, rows)` of them. |
| Cleaning.CleanRowsCounts | generate_composite_top1m.py:131-134 | The filters keep duplicates: a record occurs in the result exactly as many times as there are input rows that clean to it. |
| Cleaning.Clean | generate_composite_top1m.py:126-137 | The cleaned source has positive ranks and normal domains, is in ascending rank order, and is a permutation of the surviving rows of the limited prefix. `CleanCounts` gives each record's multiplicity. |
| Cleaning.CleanCounts | generate_composite_top1m.py:126-137 | The cleaned source holds each record once for every row of the limited prefix that cleans to it, so duplicate rows are not merged. |
| Cleaning.CleanKeepsMembers | generate_composite_top1m.py:137 | Sorting the cleaned rows neither adds nor loses a record. |
| Cleaning.CleanTakesFromLimitedPrefix | generate_composite_top1m.py:127-134 | The limit applies before filtering. A record is kept exactly when it comes from one of the first `limit` rows and survives cleaning. |
| Accumulation.AddSample | generate_composite_top1m.py:183-185 | Adding a sample keeps the accumulator invariant (keys match the insertion order, no duplicates, lists as long as the appearance count). The domain is afterwards present. Every other domain is unchanged. |
| Accumulation.PutKeepsValid | generate_composite_top1m.py:167-185 | Storing a consistent accumulator under a domain, and appending the domain to the key order when it is new, keeps the accumulator invariant. |
| Accumulation.Absorb | generate_composite_top1m.py:178-185 | One record keeps the accumulator invariant. The old key order is a prefix of the new one, and every domain present before is present after. `AbsorbAppendsOnePair` states what it adds. |
| Accumulation.AbsorbAll | generate_composite_top1m.py:173-185 | Absorbing one source's records keeps the accumulator invariant. The old key order is a prefix of the new one, and every domain present before is present after. |
| Accumulation.AccumulateAll | generate_composite_top1m.py:167-185 | The accumulated state over all sources satisfies the accumulator invariant. |
| Accumulation.Accumulate | generate_composite_top1m.py:167-185 | The loop over sources computes exactly `AccumulateAll` and keeps the invariant. |
| Accumulation.AbsorbRecords | generate_composite_top1m.py:173-185 | The loop over one source's records, updating the map and its key order, computes exactly `AbsorbAll`. |
| Accumulation.AbsorbRecord | generate_composite_top1m.py:178-185 | One pass of the loop body, updating the map and the key order in place, computes exactly `Absorb` of the state before it. |
| Accumulation.AbsorbAppendsOnePair | generate_composite_top1m.py:178-185 | A record with a non-positive rank changes nothing. Otherwise its domain's scores gain `1/rank`, its weights gain the source weight, and its appearances grow by one. |
| Accumulation.AbsorbTracks | generate_composite_top1m.py:178-185 | One record keeps every domain's accumulator equal to that domain's reference samples, extended by the record's sample when the record is for that domain. |
| Accumulation.AbsorbAllTracks | generate_composite_top1m.py:173-185 | Absorbing a source extends each domain's accumulator by exactly that domain's samples from the source, in order. |
| Accumulation.AccumulateTracks | generate_composite_top1m.py:167-185 | For every domain, the accumulator holds exactly the reference samples: one (1/rank, weight) pair per record of that domain, source by source. The appearance count equals the number of samples. A domain with no sample has no accumulator. |
| Accumulation.AbsorbEmpty | generate_composite_top1m.py:178-185 | One record leaves the state empty exactly when it was empty and the record's rank is not positive. |
| Accumulation.AbsorbAllEmpty | generate_composite_top1m.py:173-185 | After one source, the state is empty exactly when it was empty before and the source has no positive rank. |
| Accumulation.AccumulateEmpty | generate_composite_top1m.py:167-185 | No domain is accumulated exactly when no source holds a record with a positive rank. |
| Accumulation.DuplicateSamples | generate_composite_top1m.py:173-185 | A domain listed twice in one source has two reference samples, one per listing. |
| Accumulation.DuplicateCountsTwice | generate_composite_top1m.py:173-185 | A domain listed twice in one source ends with both reciprocal ranks as scores, the weight twice and two appearances. |
| Composite.Sum | generate_composite_top1m.py:197 | Definition of `sum(weights)`. `SumPositive` states its sign. |
| Composite.WeightedSum | generate_composite_top1m.py:196 | Definition of `sum(s * w for s, w in zip(...))`. `WeightedSumBetween` bounds it. |
| Composite.WeightedMean | generate_composite_top1m.py:196-198 | Definition of the weighted average, which is 0 when the total weight is not positive. `MeanBetweenBounds` bounds it. |
| Composite.StabilityBonus | generate_composite_top1m.py:201 | With at least one appearance the bonus is at least 1. `SingleAppearanceNoBonus` and `CompositeGrowsWithAppearances` state how it scales the composite. |
| Composite.MakeEntry | generate_composite_top1m.py:195-209 | Definition of one composite row. `FinalisedEntry`, `SingleSourceComposite` and `TwoSourcesAtRankOne` state its values. |
| Composite.FinalisedFrom | generate_composite_top1m.py:191-209 | Definition of the finalisation loop over a prefix of the keys. `FinalisedShape` and `FinalisedDistinct` state its properties. |
| Composite.Finalised | generate_composite_top1m.py:191-209 | Definition of the finalisation loop's result. `Finalise` is proved equal to it, and `FinalisedCount` and `FinalisedEntry` state its contents. |
| Composite.Finalise | generate_composite_top1m.py:189-209 | The loop over the accumulators yields one entry per domain, in insertion order, each built from that domain's accumulator. |
| Composite.FinalisedShape | generate_composite_top1m.py:191-209 | Finalising any list of accumulated domains yields one entry per domain, in the same order. |
| Composite.FinalisedEntry | generate_composite_top1m.py:191-209 | The k-th finalised entry belongs to the k-th domain. Its average is the weighted mean of that domain's reference samples, its composite is that average times the stability bonus, and its appearance count is the number of samples. |
| Composite.FinalisedCount | generate_composite_top1m.py:191-209 | Finalising yields exactly one entry per accumulated domain. |
| Composite.FinalisedDistinct | generate_composite_top1m.py:191-209 | No two finalised entries share a domain. |
| Composite.SortDescending | generate_composite_top1m.py:213 | The sorted entries are a permutation of the input, in non-increasing composite order. |
| Composite.AssignRanks | generate_composite_top1m.py:214 | The entry at position i gets rank i + 1. |
| Composite.RankAndTruncate | generate_composite_top1m.py:212-217 | Definition of sort, rank and `head(target_size)`. `RankedFromEntries` and `RankedKeepsEntries` state its properties. |
| Composite.Combined | generate_composite_top1m.py:158-217 | Definition of the whole fusion. No entry at all gives `Failure(NoData)`, the `KeyError` the sort at line 213 raises on an empty frame. `CombinedFailsOnlyWithoutData`, `CombinedIsRanked`, `CombinedSummarisesSamples`, `CombinedListsEveryDomain` and `CombinedKeepsTop` state its properties. |
| Composite.RankedFromEntries | generate_composite_top1m.py:212-217 | Sorting, ranking and truncating distinct entries gives ranks 1..n in non-increasing composite order, with distinct domains. With a non-negative target size it keeps `min(target, entries)` of them. |
| Composite.RankedKeepsEntries | generate_composite_top1m.py:212-217 | Every output row holds an input entry. A target at least the number of entries keeps every entry. |
| Composite.CombinedFailsOnlyWithoutData | generate_composite_top1m.py:212-213 | The fusion fails exactly when no source has a record with a positive rank. |
| Composite.CombinedIsRanked | generate_composite_top1m.py:212-217 | On success, ranks run 1, 2, … and composites do not increase. No domain appears twice. When `target_size >= 0`, the length is `min(target_size, number of domains)`. |
| Composite.CombinedSummarisesSamples | generate_composite_top1m.py:167-209 | Every output entry has at least one sample. Its average is the weighted mean of its domain's samples across all sources, its composite is that average times the stability bonus, and its appearances are the sample count. |
| Composite.CombinedListsEveryDomain | generate_composite_top1m.py:191-217 | When the target size covers every domain, every domain with at least one sample is listed. |
| Composite.TruncationKeepsTop | generate_composite_top1m.py:213-217 | `head(target_size)` after the descending sort keeps the best entries: every input entry that was cut has a composite no larger than that of any entry kept. |
| Composite.EntryOfDomain | generate_composite_top1m.py:191-209 | Every domain with a sample has a finalised entry, with that domain and the composite its samples produce. |
| Composite.CombinedKeepsTop | generate_composite_top1m.py:167-217 | The output holds the top domains: a domain with samples that is not listed has a composite no larger than any listed composite. |
| Composite.CombineListsWithDowdall | generate_composite_top1m.py:158-217 | The whole fusion: it fails only without data. On success the output is ranked and sorted, has no duplicate domains, has the expected length, and summarises each domain's samples. Every domain with samples that is cut off scores no more than any listed domain. |
| Composite.SumPositive | generate_composite_top1m.py:197 | The total of a non-empty list of positive weights is positive. |
| Composite.WeightedSumBetween | generate_composite_top1m.py:196-197 | With non-negative weights and scores in [lo, hi], the weighted sum lies between lo and hi times the total weight. |
| Composite.MeanBetweenBounds | generate_composite_top1m.py:196-198 | With positive weights, the weighted mean lies between the smallest and largest score bounds. |
| Composite.SingleAppearanceNoBonus | generate_composite_top1m.py:201-202 | With one appearance the bonus is 1, so the composite equals the average. |
| Composite.CompositeGrowsWithAppearances | generate_composite_top1m.py:201-202 | With a positive average, more appearances give a strictly larger composite. |
| Composite.SingleSourceComposite | generate_composite_top1m.py:196-202 | A domain seen once at rank r in any positively weighted source has composite exactly 1/r. |
| Composite.TwoSourcesAtRankOne | generate_composite_top1m.py:196-202 | A domain ranked first by two sources (weights 1 and 2) has average 1.0 and composite 1.1. |
| WorkedExample.ExampleFirstSourceFirstRecord | generate_composite_top1m.py:181-185 | A's rank-1 record creates a.com with score 1 and weight 1. |
| WorkedExample.ExampleFirstSourceSecondRecord | generate_composite_top1m.py:181-185 | A's rank-2 record creates b.com with score 1/2 and weight 1, after a.com in the key order. |
| WorkedExample.ExampleFirstRecords | generate_composite_top1m.py:173-185 | Absorbing A's records into the empty state gives the state after A. |
| WorkedExample.ExampleFirstSource | generate_composite_top1m.py:169-185 | After source A, a.com holds score 1 and b.com holds score 1/2, both with weight 1, in that order. |
| WorkedExample.ExampleSecondSourceFirstRecord | generate_composite_top1m.py:181-185 | B's rank-1 record appends score 1 and weight 2 to b.com. |
| WorkedExample.ExampleSecondSourceSecondRecord | generate_composite_top1m.py:181-185 | B's rank-2 record appends score 1/2 and weight 2 to a.com. |
| WorkedExample.ExampleSecondRecords | generate_composite_top1m.py:173-185 | Absorbing all of B's records after A gives the final accumulators. |
| WorkedExample.ExampleSecondSource | generate_composite_top1m.py:169-185 | Accumulating A then B gives the final accumulators. |
| WorkedExample.ExampleEntryA | generate_composite_top1m.py:196-202 | a.com, with scores 1 and 1/2 at weights 1 and 2, has average 2/3 and composite 11/15. |
| WorkedExample.ExampleEntryB | generate_composite_top1m.py:196-202 | b.com, with scores 1/2 and 1 at weights 1 and 2, has average 5/6 and composite 11/12. |
| WorkedExample.ExampleEntries | generate_composite_top1m.py:191-209 | The finalised entries are a.com (average 2/3, composite 11/15) and b.com (average 5/6, composite 11/12). |
| WorkedExample.ExampleRanking | generate_composite_top1m.py:212-217 | Sorting and ranking puts b.com first and a.com second. |
| WorkedExample.TwoSourceExample | generate_composite_top1m.py:158-217 | End to end: b.com is rank 1 with composite 11/12, and a.com is rank 2 with composite 11/15. |

## Left out

- Acquisition and parsing (`download_and_parse`, lines 72-125): the HTTP download, ZIP/CSV decoding, column renaming, origin-to-domain extraction and the rank conversion (`to_numeric(..., errors='coerce')`). The model starts from already parsed `(rank, domain)` rows in which either field may be NA.
- The `SOURCES` configuration table and its URLs: the model takes each source's records, weight and optional limit as parameters.
- Composite.Combined: `target_size` is a parameter. The source's default of 1,000,000 (line 158) is left to the caller.
- The statistics printed after the fusion (lines 221-230), all printing, CSV output, timestamps, the sleep between downloads, and `main`'s check for zero loaded datasets.
- IEEE double arithmetic. Scores, weights, means and the bonus `0.1` are exact reals, so rounding in `1.0 / rank`, in the sums and in `(appearances - 1) * 0.1` is not modelled.
- Cleaning.Lower, Cleaning.LowerChar: lowercase ASCII letters only; `LowerChar` leaves every non-ASCII character unchanged. Python's `str.lower()` also maps non-ASCII letters; internationalised domains are not modelled beyond ASCII.
- Sorting.SortByKey: a stable insertion sort stands in for pandas' default (non-stable) quicksort. The model claims only sortedness and permutation, so the relative order of equal ranks or equal composite scores is not modelled.
- The NA branch of combine's `pd.isna(rank) or rank <= 0` skip (line 178): cleaned records always carry an integer rank, so it cannot arise. The non-positive-rank skip and the `score > 0` test (line 182) are modelled in `Absorb` and `AbsorbRecord`.
- The `appearances == 0` skip (line 192) is modelled, but it cannot fire: every accumulator is created by a positive-score sample.
- Accumulation does not skip records with an empty domain: the code at lines 173-185 has no such check, and the model follows the code. Such records reach the fusion only when they did not pass through cleaning.
- Weights are taken as given. The source does not check them, so the model accepts any real weight. The mean bounds (`MeanBetweenBounds`) are stated for positive weights, and a non-positive total weight gives an average of 0 as at line 198.

/**
 * The accumulation pass of the Dowdall combiner: every record of every
 * source, in source order and then record order, is scored and folded into a
 * map from domain to accumulator.  A Python dict remembers the order in which
 * its keys were first inserted; `order` records that order beside the map.
 */
module Accumulation {
  import opened Wrappers
  import Dowdall
  import Cleaning

  /** One source as the combiner receives it: its cleaned records and its weight. */
  datatype Source = Source(name: string, records: seq<Cleaning.Record>, weight: real)

  /** The per-domain accumulator: parallel score and weight lists and an appearance count. */
  datatype Acc = Acc(scores: seq<real>, weights: seq<real>, appearances: int)

  /** The accumulator map and its keys in insertion order. */
  datatype Accumulators = Accumulators(byDomain: map<string, Acc>, order: seq<string>)

  const Empty := Accumulators(map[], [])

  /** What a missing key of the `defaultdict` starts as. */
  const Fresh := Acc([], [], 0)

  ghost predicate NoDuplicates(s: seq<string>) {
    forall i, j :: 0 <= i < j < |s| ==> s[i] != s[j]
  }

  /** An accumulator that has seen at least one sample, one score and one weight per appearance. */
  ghost predicate ConsistentAcc(a: Acc) {
    |a.scores| == a.appearances && |a.weights| == a.appearances && a.appearances >= 1
  }

  /**
   * The invariant of the accumulator map: `order` lists each key exactly
   * once, and every accumulator is consistent.
   */
  ghost predicate Valid(st: Accumulators) {
    && NoDuplicates(st.order)
    && (forall d :: d in st.byDomain <==> d in st.order)
    && |st.order| == |st.byDomain|
    && (forall d :: d in st.byDomain ==> ConsistentAcc(st.byDomain[d]))
  }

  /**
   * `domain_scores[d]` gains one (score, weight) pair and one appearance; a
   * key seen for the first time goes to the end of the order.  No other
   * domain changes.
   */
  function AddSample(st: Accumulators, d: string, score: real, w: real): (st': Accumulators)
    ensures Valid(st) ==> Valid(st')
    ensures d in st'.byDomain && (Valid(st) ==> d in st'.order)
    ensures forall e :: e != d ==> (e in st'.byDomain <==> e in st.byDomain)
    ensures forall e :: e != d && e in st.byDomain ==> st'.byDomain[e] == st.byDomain[e]
    ensures |st.order| <= |st'.order| && st.order <= st'.order
  {
    var a := if d in st.byDomain then st.byDomain[d] else Fresh;
    var st' := Accumulators(st.byDomain[d := Acc(a.scores + [score], a.weights + [w], a.appearances + 1)],
                            if d in st.byDomain then st.order else st.order + [d]);
    assert Valid(st) ==> Valid(st') by {
      if Valid(st) {
        PutKeepsValid(st, d, st'.byDomain[d]);
      }
    }
    st'
  }

  /** Storing a consistent accumulator under `d`, appending `d` to the order when it is new, keeps the invariant. */
  lemma PutKeepsValid(st: Accumulators, d: string, acc: Acc)
    requires Valid(st) && ConsistentAcc(acc)
    ensures Valid(Accumulators(st.byDomain[d := acc], if d in st.byDomain then st.order else st.order + [d]))
  {
    if d in st.byDomain {
      var m := st.byDomain[d := acc];
      assert m.Keys == st.byDomain.Keys;
      assert forall e :: e in m ==> ConsistentAcc(m[e]);
    } else {
      PutNewKeepsValid(st, d, acc);
    }
  }

  lemma PutNewKeepsValid(st: Accumulators, d: string, acc: Acc)
    requires Valid(st) && ConsistentAcc(acc) && d !in st.byDomain
    ensures Valid(Accumulators(st.byDomain[d := acc], st.order + [d]))
  {
    var m, order := st.byDomain[d := acc], st.order + [d];
    assert |m| == |st.byDomain| + 1;
    assert NoDuplicates(order) by {
      forall i, j | 0 <= i < j < |order| ensures order[i] != order[j] {
        assert order[i] == st.order[i];
        if j < |st.order| {
          assert order[j] == st.order[j];
        } else {
          assert order[j] == d && d !in st.order;
        }
      }
    }
    assert forall e :: e in m ==> ConsistentAcc(m[e]);
  }

  /**
   * One pass of the inner loop: a record with a rank that is not positive is
   * skipped; otherwise it is scored and, the score being positive, added
   * under its domain with the source's weight.
   */
  function Absorb(st: Accumulators, r: Cleaning.Record, w: real, listSize: int): (st': Accumulators)
    ensures Valid(st) ==> Valid(st')
    ensures st.order <= st'.order
    ensures forall e :: e in st.byDomain ==> e in st'.byDomain
  {
    if r.rank <= 0 then st
    else
      var score := Dowdall.DowdallScore(Some(r.rank), listSize);
      if score > 0.0 then AddSample(st, r.domain, score, w) else st
  }

  /** The inner loop over the records of one source. */
  function AbsorbAll(st: Accumulators, recs: seq<Cleaning.Record>, w: real, listSize: int): (st': Accumulators)
    ensures Valid(st) ==> Valid(st')
    ensures |st.order| <= |st'.order| && st.order <= st'.order
    ensures forall e :: e in st.byDomain ==> e in st'.byDomain
  {
    if recs == [] then st
    else Absorb(AbsorbAll(st, recs[..|recs| - 1], w, listSize), recs[|recs| - 1], w, listSize)
  }

  /** Both loops: the sources in order, each with its own weight and list size. */
  function AccumulateAll(sources: seq<Source>): (st: Accumulators)
    ensures Valid(st)
  {
    if sources == [] then Empty
    else
      var last := sources[|sources| - 1];
      AbsorbAll(AccumulateAll(sources[..|sources| - 1]), last.records, last.weight, |last.records|)
  }

  /** One more source: the state so far absorbs that source's records. */
  lemma AccumulateAllStep(sources: seq<Source>, i: int)
    requires 0 <= i < |sources|
    ensures AccumulateAll(sources[..i + 1])
         == AbsorbAll(AccumulateAll(sources[..i]), sources[i].records, sources[i].weight, |sources[i].records|)
  {
    assert sources[..i + 1][..i] == sources[..i];
  }

  /** One more record: the state so far absorbs that record. */
  lemma AbsorbAllStep(st: Accumulators, recs: seq<Cleaning.Record>, j: int, w: real, listSize: int)
    requires 0 <= j < |recs|
    ensures AbsorbAll(st, recs[..j + 1], w, listSize) == Absorb(AbsorbAll(st, recs[..j], w, listSize), recs[j], w, listSize)
  {
    assert recs[..j + 1][..j] == recs[..j];
  }

  /** The accumulation loops as the combiner runs them, updating the map in place. */
  method Accumulate(sources: seq<Source>) returns (st: Accumulators)
    ensures st == AccumulateAll(sources)
    ensures Valid(st)
  {
    st := Accumulators(map[], []);
    var i := 0;
    while i < |sources|
      invariant 0 <= i <= |sources|
      invariant st == AccumulateAll(sources[..i])
    {
      var source := sources[i];
      st := AbsorbRecords(st, source.records, source.weight, |source.records|);
      AccumulateAllStep(sources, i);
      i := i + 1;
    }
    assert sources[..|sources|] == sources;
  }

  /** The inner loop over one source's records, updating `domain_scores` and its key order. */
  method AbsorbRecords(st0: Accumulators, recs: seq<Cleaning.Record>, w: real, listSize: int) returns (st: Accumulators)
    ensures st == AbsorbAll(st0, recs, w, listSize)
  {
    var byDomain := st0.byDomain;
    var order := st0.order;
    var j := 0;
    while j < |recs|
      invariant 0 <= j <= |recs|
      invariant Accumulators(byDomain, order) == AbsorbAll(st0, recs[..j], w, listSize)
    {
      AbsorbAllStep(st0, recs, j, w, listSize);
      byDomain, order := AbsorbRecord(byDomain, order, recs[j], w, listSize);
      j := j + 1;
    }
    assert recs[..|recs|] == recs;
    st := Accumulators(byDomain, order);
  }

  /** One pass of the inner loop body: skip, or score the record and update its domain in place. */
  method AbsorbRecord(byDomain0: map<string, Acc>, order0: seq<string>, rec: Cleaning.Record, w: real, listSize: int)
    returns (byDomain: map<string, Acc>, order: seq<string>)
    ensures Accumulators(byDomain, order) == Absorb(Accumulators(byDomain0, order0), rec, w, listSize)
  {
    byDomain, order := byDomain0, order0;
    if rec.rank <= 0 {
      return;
    }
    var score := Dowdall.DowdallScore(Some(rec.rank), listSize);
    if score > 0.0 {
      var data := if rec.domain in byDomain then byDomain[rec.domain] else Fresh;
      if rec.domain !in byDomain {
        order := order + [rec.domain];
      }
      byDomain := byDomain[rec.domain := Acc(data.scores + [score], data.weights + [w], data.appearances + 1)];
    }
  }

  /*
   * A reference for what accumulation must produce, written without the map:
   * the list of (1/rank, weight) samples a domain receives, in iteration order.
   */

  datatype Sample = Sample(score: real, weight: real)

  /** The samples one source's records contribute to domain `d`. */
  function RecordSamples(recs: seq<Cleaning.Record>, w: real, d: string): seq<Sample> {
    if recs == [] then []
    else
      var r := recs[|recs| - 1];
      RecordSamples(recs[..|recs| - 1], w, d)
        + (if r.rank > 0 && r.domain == d then [Sample(1.0 / r.rank as real, w)] else [])
  }

  /** The samples all sources contribute to domain `d`. */
  function SamplesFor(sources: seq<Source>, d: string): seq<Sample> {
    if sources == [] then []
    else
      var s := sources[|sources| - 1];
      SamplesFor(sources[..|sources| - 1], d) + RecordSamples(s.records, s.weight, d)
  }

  function Scores(ss: seq<Sample>): (r: seq<real>)
    ensures |r| == |ss| && forall i :: 0 <= i < |ss| ==> r[i] == ss[i].score
  {
    seq(|ss|, i requires 0 <= i < |ss| => ss[i].score)
  }

  function Weights(ss: seq<Sample>): (r: seq<real>)
    ensures |r| == |ss| && forall i :: 0 <= i < |ss| ==> r[i] == ss[i].weight
  {
    seq(|ss|, i requires 0 <= i < |ss| => ss[i].weight)
  }

  /** The map holds for `d` exactly the samples `ss`: absent when there are none. */
  ghost predicate Tracks(st: Accumulators, d: string, ss: seq<Sample>) {
    && (d in st.byDomain <==> ss != [])
    && (d in st.byDomain ==> st.byDomain[d] == Acc(Scores(ss), Weights(ss), |ss|))
  }

  /**
   * A record with a positive rank appends exactly one (1/rank, weight) pair to
   * its own domain and counts one appearance; any other record changes
   * nothing.
   */
  lemma AbsorbAppendsOnePair(st: Accumulators, r: Cleaning.Record, w: real, listSize: int)
    ensures r.rank <= 0 ==> Absorb(st, r, w, listSize) == st
    ensures r.rank > 0 ==>
      var a := if r.domain in st.byDomain then st.byDomain[r.domain] else Fresh;
      Absorb(st, r, w, listSize).byDomain
        == st.byDomain[r.domain := Acc(a.scores + [1.0 / r.rank as real], a.weights + [w], a.appearances + 1)]
  {
  }

  lemma AbsorbTracks(st: Accumulators, r: Cleaning.Record, w: real, listSize: int, d: string, ss: seq<Sample>)
    requires Tracks(st, d, ss)
    ensures Tracks(Absorb(st, r, w, listSize), d,
                   ss + (if r.rank > 0 && r.domain == d then [Sample(1.0 / r.rank as real, w)] else []))
  {
    if r.rank > 0 && r.domain == d {
      var ss' := ss + [Sample(1.0 / r.rank as real, w)];
      assert Scores(ss') == Scores(ss) + [1.0 / r.rank as real];
      assert Weights(ss') == Weights(ss) + [w];
    }
  }

  lemma {:induction false} AbsorbAllTracks(st: Accumulators, recs: seq<Cleaning.Record>, w: real, listSize: int,
                                           d: string, ss: seq<Sample>)
    requires Tracks(st, d, ss)
    ensures Tracks(AbsorbAll(st, recs, w, listSize), d, ss + RecordSamples(recs, w, d))
  {
    if recs != [] {
      var init, r := recs[..|recs| - 1], recs[|recs| - 1];
      AbsorbAllTracks(st, init, w, listSize, d, ss);
      AbsorbTracks(AbsorbAll(st, init, w, listSize), r, w, listSize, d, ss + RecordSamples(init, w, d));
      assert ss + RecordSamples(recs, w, d)
          == ss + RecordSamples(init, w, d)
             + (if r.rank > 0 && r.domain == d then [Sample(1.0 / r.rank as real, w)] else []);
    }
  }

  /**
   * Accumulation agrees with the reference: a domain has an accumulator
   * exactly when it has a sample, and the accumulator holds that domain's
   * scores and weights in iteration order and counts one appearance per
   * sample (a domain listed twice in one source counts twice).
   */
  lemma {:induction false} AccumulateTracks(sources: seq<Source>, d: string)
    ensures Tracks(AccumulateAll(sources), d, SamplesFor(sources, d))
  {
    if sources != [] {
      var init, s := sources[..|sources| - 1], sources[|sources| - 1];
      AccumulateTracks(init, d);
      AbsorbAllTracks(AccumulateAll(init), s.records, s.weight, |s.records|, d, SamplesFor(init, d));
    }
  }

  /** How many records have a positive rank. */
  function PositiveRanks(recs: seq<Cleaning.Record>): nat {
    if recs == [] then 0
    else PositiveRanks(recs[..|recs| - 1]) + (if recs[|recs| - 1].rank > 0 then 1 else 0)
  }

  function PositiveRanksIn(sources: seq<Source>): nat {
    if sources == [] then 0
    else PositiveRanksIn(sources[..|sources| - 1]) + PositiveRanks(sources[|sources| - 1].records)
  }

  /** One record leaves the state empty exactly when it was empty and the rank is not positive. */
  lemma AbsorbEmpty(st: Accumulators, r: Cleaning.Record, w: real, listSize: int)
    requires Valid(st)
    ensures Absorb(st, r, w, listSize).order == [] <==> st.order == [] && r.rank <= 0
  {
    if r.rank > 0 {
      var score := Dowdall.DowdallScore(Some(r.rank), listSize);
      assert score > 0.0;
      assert r.domain in AddSample(st, r.domain, score, w).order;
    }
  }

  lemma {:induction false} AbsorbAllEmpty(st: Accumulators, recs: seq<Cleaning.Record>, w: real, listSize: int)
    requires Valid(st)
    ensures AbsorbAll(st, recs, w, listSize).order == [] <==> st.order == [] && PositiveRanks(recs) == 0
  {
    if recs != [] {
      var init, r := recs[..|recs| - 1], recs[|recs| - 1];
      AbsorbAllEmpty(st, init, w, listSize);
      var before := AbsorbAll(st, init, w, listSize);
      assert AbsorbAll(st, recs, w, listSize) == Absorb(before, r, w, listSize);
      AbsorbEmpty(before, r, w, listSize);
    }
  }

  /** The map stays empty exactly when no record of any source has a positive rank. */
  lemma {:induction false} AccumulateEmpty(sources: seq<Source>)
    ensures AccumulateAll(sources).order == [] <==> PositiveRanksIn(sources) == 0
  {
    if sources != [] {
      var init, s := sources[..|sources| - 1], sources[|sources| - 1];
      AccumulateEmpty(init);
      AbsorbAllEmpty(AccumulateAll(init), s.records, s.weight, |s.records|);
    }
  }

  /** The reference samples of a domain listed twice in one source. */
  lemma DuplicateSamples(d: string, r1: int, r2: int, w: real)
    requires r1 > 0 && r2 > 0
    ensures SamplesFor([Source("s", [Cleaning.Record(r1, d), Cleaning.Record(r2, d)], w)], d)
         == [Sample(1.0 / r1 as real, w), Sample(1.0 / r2 as real, w)]
  {
    var recs := [Cleaning.Record(r1, d), Cleaning.Record(r2, d)];
    var sources := [Source("s", recs, w)];
    var ss := [Sample(1.0 / r1 as real, w), Sample(1.0 / r2 as real, w)];
    assert sources[..0] == [];
    assert SamplesFor(sources, d) == [] + RecordSamples(recs, w, d);
    assert recs[..1][..0] == [];
    assert RecordSamples(recs[..1], w, d) == [] + [ss[0]];
    assert RecordSamples(recs, w, d) == [ss[0]] + [ss[1]];
  }

  /** Helper for `DuplicateCountsTwice`: the score and weight columns of a two-sample list. */
  lemma TwoSamples(a: Sample, b: Sample)
    ensures Scores([a, b]) == [a.score, b.score] && Weights([a, b]) == [a.weight, b.weight]
  {
  }

  /** A domain listed twice in one source gets both scores, the weight twice and two appearances. */
  lemma DuplicateCountsTwice(d: string, r1: int, r2: int, w: real)
    requires r1 > 0 && r2 > 0
    ensures var st := AccumulateAll([Source("s", [Cleaning.Record(r1, d), Cleaning.Record(r2, d)], w)]);
      d in st.byDomain && st.byDomain[d] == Acc([1.0 / r1 as real, 1.0 / r2 as real], [w, w], 2)
  {
    var sources := [Source("s", [Cleaning.Record(r1, d), Cleaning.Record(r2, d)], w)];
    var ss := [Sample(1.0 / r1 as real, w), Sample(1.0 / r2 as real, w)];
    AccumulateTracks(sources, d);
    DuplicateSamples(d, r1, r2, w);
    TwoSamples(ss[0], ss[1]);
  }
}

/**
 * A worked example of the fusion: source A (weight 1) ranks a.com 1st and
 * b.com 2nd, source B (weight 2) ranks them the other way round.  Both
 * domains appear twice; b.com's weighted mean 5/6 beats a.com's 2/3, so
 * b.com is ranked first with composite 11/12 and a.com second with 11/15.
 */
module WorkedExample {
  import opened Wrappers
  import Cleaning
  import Dowdall
  import opened Accumulation
  import opened Composite

  /** Source A's records and weight. */
  function SourceA(): Source { Source("A", [Cleaning.Record(1, "a.com"), Cleaning.Record(2, "b.com")], 1.0) }
  function SourceB(): Source { Source("B", [Cleaning.Record(1, "b.com"), Cleaning.Record(2, "a.com")], 2.0) }

  /** The accumulators after A's first record. */
  function StartState(): Accumulators {
    Accumulators(map["a.com" := Acc([1.0], [1.0], 1)], ["a.com"])
  }

  lemma ExampleFirstSourceFirstRecord()
    ensures Absorb(Empty, Cleaning.Record(1, "a.com"), 1.0, 2) == StartState()
  {
    assert Dowdall.DowdallScore(Some(1), 2) == 1.0;
    assert [] + ["a.com"] == ["a.com"];
    assert Fresh.scores + [1.0] == [1.0] && Fresh.weights + [1.0] == [1.0];
  }

  lemma ExampleFirstSourceSecondRecord()
    ensures Absorb(StartState(), Cleaning.Record(2, "b.com"), 1.0, 2) == FirstState()
  {
    assert Dowdall.DowdallScore(Some(2), 2) == 0.5;
    assert ["a.com"] + ["b.com"] == ["a.com", "b.com"];
    assert Fresh.scores + [0.5] == [0.5] && Fresh.weights + [1.0] == [1.0];
  }

  lemma ExampleFirstRecords()
    ensures AbsorbAll(Empty, SourceA().records, 1.0, 2) == FirstState()
  {
    var a := SourceA().records;
    assert a[..1][..0] == [];
    ExampleFirstSourceFirstRecord();
    ExampleFirstSourceSecondRecord();
    assert AbsorbAll(Empty, a[..1], 1.0, 2) == StartState();
  }

  lemma ExampleFirstSource()
    ensures AccumulateAll([SourceA()]) == FirstState()
  {
    var sources := [SourceA()];
    assert sources[..0] == [];
    assert AccumulateAll(sources) == AbsorbAll(Empty, SourceA().records, 1.0, 2);
    ExampleFirstRecords();
  }

  /** The accumulators after source A, after B's first record, and at the end. */
  function FirstState(): Accumulators {
    Accumulators(map["a.com" := Acc([1.0], [1.0], 1), "b.com" := Acc([0.5], [1.0], 1)], ["a.com", "b.com"])
  }

  function FinalState(): Accumulators {
    Accumulators(map["a.com" := Acc([1.0, 0.5], [1.0, 2.0], 2), "b.com" := Acc([0.5, 1.0], [1.0, 2.0], 2)], ["a.com", "b.com"])
  }

  function MiddleState(): Accumulators {
    Accumulators(map["a.com" := Acc([1.0], [1.0], 1), "b.com" := Acc([0.5, 1.0], [1.0, 2.0], 2)], ["a.com", "b.com"])
  }

  lemma ExampleSecondSourceFirstRecord()
    ensures Absorb(FirstState(), Cleaning.Record(1, "b.com"), 2.0, 2) == MiddleState()
  {
    assert Dowdall.DowdallScore(Some(1), 2) == 1.0;
    assert [0.5] + [1.0] == [0.5, 1.0] && [1.0] + [2.0] == [1.0, 2.0];
    var m := FirstState().byDomain["b.com" := Acc([0.5, 1.0], [1.0, 2.0], 2)];
    assert m.Keys == MiddleState().byDomain.Keys;
    assert m == MiddleState().byDomain;
  }

  lemma ExampleSecondSourceSecondRecord()
    ensures Absorb(MiddleState(), Cleaning.Record(2, "a.com"), 2.0, 2) == FinalState()
  {
    assert Dowdall.DowdallScore(Some(2), 2) == 0.5;
    assert [1.0] + [0.5] == [1.0, 0.5] && [1.0] + [2.0] == [1.0, 2.0];
    var m := MiddleState().byDomain["a.com" := Acc([1.0, 0.5], [1.0, 2.0], 2)];
    assert m.Keys == FinalState().byDomain.Keys;
    assert m == FinalState().byDomain;
  }

  lemma ExampleSecondRecords()
    ensures AbsorbAll(FirstState(), SourceB().records, 2.0, 2) == FinalState()
  {
    var b := SourceB().records;
    assert b[..1][..0] == [];
    ExampleSecondSourceFirstRecord();
    ExampleSecondSourceSecondRecord();
    assert AbsorbAll(FirstState(), b[..1], 2.0, 2) == MiddleState();
  }

  lemma ExampleSecondSource()
    ensures AccumulateAll([SourceA(), SourceB()]) == FinalState()
  {
    var sources := [SourceA(), SourceB()];
    var b := sources[1];
    assert sources[..1] == [SourceA()];
    assert AccumulateAll(sources) == AbsorbAll(AccumulateAll([SourceA()]), b.records, b.weight, |b.records|);
    ExampleFirstSource();
    ExampleSecondRecords();
  }

  /** a.com: mean (1 * 1 + 1/2 * 2) / 3 = 2/3, composite 2/3 * 1.1 = 11/15. */
  lemma ExampleEntryA()
    ensures MakeEntry("a.com", Acc([1.0, 0.5], [1.0, 2.0], 2)) == Entry("a.com", 11.0 / 15.0, 2, 2.0 / 3.0)
  {
    assert Sum([1.0, 2.0]) == 3.0;
    assert WeightedSum([1.0, 0.5], [1.0, 2.0]) == 2.0;
  }

  /** b.com: mean (1/2 * 1 + 1 * 2) / 3 = 5/6, composite 5/6 * 1.1 = 11/12. */
  lemma ExampleEntryB()
    ensures MakeEntry("b.com", Acc([0.5, 1.0], [1.0, 2.0], 2)) == Entry("b.com", 11.0 / 12.0, 2, 5.0 / 6.0)
  {
    assert Sum([1.0, 2.0]) == 3.0;
    assert WeightedSum([0.5, 1.0], [1.0, 2.0]) == 2.5;
  }

  lemma ExampleEntries()
    ensures Finalised(FinalState()) == [Entry("a.com", 11.0 / 15.0, 2, 2.0 / 3.0), Entry("b.com", 11.0 / 12.0, 2, 5.0 / 6.0)]
  {
    var st := FinalState();
    assert Valid(st) by {
      assert |st.byDomain| == 2;
    }
    ExampleEntryA();
    ExampleEntryB();
    assert st.order[..1] == ["a.com"] && st.order[..1][..0] == [];
    assert FinalisedFrom(st, ["a.com"]) == [MakeEntry("a.com", st.byDomain["a.com"])];
    assert FinalisedFrom(st, st.order) == FinalisedFrom(st, ["a.com"]) + [MakeEntry("b.com", st.byDomain["b.com"])];
  }

  lemma ExampleRanking()
    ensures RankAndTruncate([Entry("a.com", 11.0 / 15.0, 2, 2.0 / 3.0), Entry("b.com", 11.0 / 12.0, 2, 5.0 / 6.0)], 10)
         == [RankedEntry(1, Entry("b.com", 11.0 / 12.0, 2, 5.0 / 6.0)), RankedEntry(2, Entry("a.com", 11.0 / 15.0, 2, 2.0 / 3.0))]
  {
    var ea, eb := Entry("a.com", 11.0 / 15.0, 2, 2.0 / 3.0), Entry("b.com", 11.0 / 12.0, 2, 5.0 / 6.0);
    assert [ea, eb][1..] == [eb];
    assert Sorting.SortByKey([eb], DescendingKey) == [eb];
    assert SortDescending([ea, eb]) == [eb, ea];
  }

  /** The end-to-end result: b.com first with composite 11/12, a.com second with 11/15. */
  lemma TwoSourceExample()
    ensures Combined([SourceA(), SourceB()], 10)
         == Success([RankedEntry(1, Entry("b.com", 11.0 / 12.0, 2, 5.0 / 6.0)),
                     RankedEntry(2, Entry("a.com", 11.0 / 15.0, 2, 2.0 / 3.0))])
  {
    ExampleSecondSource();
    ExampleEntries();
    ExampleRanking();
  }
}

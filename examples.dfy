/**
 * Worked logs: the transform and the statistics on small concrete inputs,
 * showing the generation and position columns, the `[:-1]` rule and the
 * unclamped estimate. Each step is its own small lemma.
 */
module Examples {
  import opened Wrappers
  import opened Columns
  import opened BritaLog
  import opened Statistics

  /** Two refills, a replacement, a refill; timestamps are hours, days count from 1. */
  function FourEvents(): seq<Event>
  {
    [Event(0, 1, Refilled), Event(24, 2, Refilled), Event(48, 3, Replaced), Event(72, 4, Refilled)]
  }

  function FourRows(): seq<Row>
  {
    [ Row(0, 1, Refilled, 1, 0, 0), Row(24, 2, Refilled, 1, 0, 1),
      Row(48, 3, Replaced, 1, 1, 0), Row(72, 4, Refilled, 1, 1, 1) ]
  }

  lemma FourRowsSteps()
    ensures GenerationSteps(FourRows())
  {
    var log := FourRows();
    LabelsDiffer();
    forall i | 0 <= i < |log| ensures StepAt(log, i) {
    }
  }

  lemma FourRowsBases()
    ensures |FourRows()| == |FourEvents()|
    ensures forall i :: 0 <= i < |FourEvents()| ==> Base(FourRows()[i]) == FourEvents()[i] && FourRows()[i].refills == 1
  {
  }

  lemma FourEventsInOrder()
    ensures StrictlyByTime(FourEvents())
  {
  }

  /** Generations [0, 0, 1, 1] and positions [0, 1, 0, 1]. */
  lemma FourEventsLog()
    ensures Log(FourEvents()) == FourRows()
  {
    FourEventsInOrder();
    FourRowsSteps();
    FourRowsBases();
    LogOfOrderedEvents(FourEvents(), FourRows());
  }

  lemma FourRowsSubsets()
    ensures RefillRows(FourRows()) == [FourRows()[0], FourRows()[1], FourRows()[3]]
    ensures ReplacementRows(FourRows()) == [FourRows()[2]]
  {
    var l := FourRows();
    assert Init(l) == l[..3];
    assert Init(l[..3]) == l[..2];
    assert Init(l[..2]) == l[..1];
    assert Init(l[..1]) == [];
  }

  lemma GroupTwoThenOne()
    ensures GroupSum([0, 0, 1], [1, 1, 1]) == [Group(0, 2), Group(1, 1)]
  {
    assert Init([0, 0, 1]) == [0, 0] && Init([0, 0]) == [0] && Init([0]) == [];
    assert Init([1, 1, 1]) == [1, 1] && Init([1, 1]) == [1] && Init([1]) == [];
    assert SortedKeys([0, 0, 1]) == [0, 1];
    assert SumWhere([0, 0, 1], [1, 1, 1], 0) == 2;
    assert SumWhere([0, 0, 1], [1, 1, 1], 1) == 1;
  }

  /** The columns of three rows. */
  lemma ColumnsOfThree(a: Row, b: Row, c: Row)
    ensures Filters([a, b, c]) == [a.filter, b.filter, c.filter]
    ensures Days([a, b, c]) == [a.day, b.day, c.day]
    ensures RefillsColumn([a, b, c]) == [a.refills, b.refills, c.refills]
  {
  }

  lemma FourRowsGenerations()
    ensures RefillGenerations(FourRows()) == [Group(0, 2), Group(1, 1)]
  {
    FourRowsSubsets();
    var l := FourRows();
    ColumnsOfThree(l[0], l[1], l[3]);
    GroupTwoThenOne();
  }

  /** The mean of the groups kept by `[:-1]` when there are two: the first group's total. */
  lemma MeanOfFirstOfTwo(a: Group, b: Group)
    ensures Mean(Totals(DropLast([a, b]))) == Some(a.total as real)
  {
    assert DropLast([a, b]) == [a];
    assert Totals([a]) == [a.total];
    assert Sum([a.total]) == a.total by { assert Init([a.total]) == []; }
  }

  /** One filter used (one replacement). */
  lemma FourEventsFiltersUsed()
    ensures ReplacementCount(FourRows()) == 1
  {
    FourRowsSubsets();
  }

  /** A mean of 2 refills per filter: generation 0's two refills; generation 1 is dropped. */
  lemma FourEventsMeanPerFilter()
    ensures MeanRefillsPerFilter(FourRows()) == Some(2.0)
  {
    FourRowsGenerations();
    MeanOfFirstOfTwo(Group(0, 2), Group(1, 1));
  }

  /** One refill on the current filter. */
  lemma FourEventsThisIteration()
    ensures RefillsThisIteration(FourRows()) == Some(1)
  {
    FourRowsSubsets();
  }

  /**
   * A refill, a replacement, two refills and a second replacement with no
   * refill after it. Refills fall on days 1, 2 and 3.
   */
  function FiveEvents(): seq<Event>
  {
    [ Event(0, 1, Refilled), Event(1, 1, Replaced), Event(24, 2, Refilled),
      Event(48, 3, Refilled), Event(49, 3, Replaced) ]
  }

  function FiveRows(): seq<Row>
  {
    [ Row(0, 1, Refilled, 1, 0, 0), Row(1, 1, Replaced, 1, 1, 0), Row(24, 2, Refilled, 1, 1, 1),
      Row(48, 3, Refilled, 1, 1, 2), Row(49, 3, Replaced, 1, 2, 0) ]
  }

  lemma FiveRowsSteps()
    ensures GenerationSteps(FiveRows())
  {
    var log := FiveRows();
    LabelsDiffer();
    forall i | 0 <= i < |log| ensures StepAt(log, i) {
    }
  }

  lemma FiveRowsBases()
    ensures |FiveRows()| == |FiveEvents()|
    ensures forall i :: 0 <= i < |FiveEvents()| ==> Base(FiveRows()[i]) == FiveEvents()[i] && FiveRows()[i].refills == 1
  {
  }

  lemma FiveEventsInOrder()
    ensures StrictlyByTime(FiveEvents())
  {
  }

  /** Generations [0, 1, 1, 1, 2] and positions [0, 0, 1, 2, 0]. */
  lemma FiveEventsLog()
    ensures Log(FiveEvents()) == FiveRows()
  {
    FiveEventsInOrder();
    FiveRowsSteps();
    FiveRowsBases();
    LogOfOrderedEvents(FiveEvents(), FiveRows());
  }

  lemma FiveRowsRefills()
    ensures RefillRows(FiveRows()) == [FiveRows()[0], FiveRows()[2], FiveRows()[3]]
  {
    var l := FiveRows();
    assert Init(l) == l[..4];
    assert Init(l[..4]) == l[..3];
    assert Init(l[..3]) == l[..2];
    assert Init(l[..2]) == l[..1];
    assert Init(l[..1]) == [];
  }

  lemma GroupOneThenTwo()
    ensures GroupSum([0, 1, 1], [1, 1, 1]) == [Group(0, 1), Group(1, 2)]
  {
    assert Init([0, 1, 1]) == [0, 1] && Init([0, 1]) == [0] && Init([0]) == [];
    assert Init([1, 1, 1]) == [1, 1] && Init([1, 1]) == [1] && Init([1]) == [];
    assert SortedKeys([0, 1, 1]) == [0, 1];
    assert SumWhere([0, 1, 1], [1, 1, 1], 0) == 1;
    assert SumWhere([0, 1, 1], [1, 1, 1], 1) == 2;
  }

  lemma GroupThreeDays()
    ensures GroupSum([1, 2, 3], [1, 1, 1]) == [Group(1, 1), Group(2, 1), Group(3, 1)]
  {
    assert Init([1, 2, 3]) == [1, 2] && Init([1, 2]) == [1] && Init([1]) == [];
    assert Init([1, 1, 1]) == [1, 1] && Init([1, 1]) == [1];
    assert SortedKeys([1, 2, 3]) == [1, 2, 3];
    assert SumWhere([1, 2, 3], [1, 1, 1], 1) == 1;
    assert SumWhere([1, 2, 3], [1, 1, 1], 2) == 1;
    assert SumWhere([1, 2, 3], [1, 1, 1], 3) == 1;
  }

  lemma FiveRowsGroups()
    ensures RefillGenerations(FiveRows()) == [Group(0, 1), Group(1, 2)]
    ensures RefillDays(FiveRows()) == [Group(1, 1), Group(2, 1), Group(3, 1)]
  {
    FiveRowsRefills();
    var l := FiveRows();
    ColumnsOfThree(l[0], l[2], l[3]);
    GroupOneThenTwo();
    GroupThreeDays();
  }

  lemma TotalsOfThree(a: Group, b: Group, c: Group)
    ensures Totals([a, b, c]) == [a.total, b.total, c.total]
  {
  }

  lemma MeanOfThreeOnes()
    ensures Mean([1, 1, 1]) == Some(1.0)
  {
    assert Init([1, 1, 1]) == [1, 1] && Init([1, 1]) == [1] && Init([1]) == [];
  }

  /**
   * The current generation (2) has no refill yet, so `[:-1]` drops the
   * completed generation 1 (2 refills) and the mean is generation 0's single
   * refill: 1, where averaging the completed generations would give 1.5.
   */
  lemma FiveEventsDropCompletedGeneration()
    ensures Last(FiveRows()).filter == 2
    ensures MeanRefillsPerFilter(FiveRows()) == Some(1.0)
  {
    FiveRowsGroups();
    MeanOfFirstOfTwo(Group(0, 1), Group(1, 2));
  }

  /** One refill on each of days 1, 2 and 3. */
  lemma FiveEventsMeanPerDay()
    ensures MeanRefillsPerDay(FiveRows()) == Some(1.0)
  {
    FiveRowsGroups();
    TotalsOfThree(Group(1, 1), Group(2, 1), Group(3, 1));
    MeanOfThreeOnes();
  }

  /** `refills_this_iteration` is read from the last refill, in generation 1. */
  lemma FiveEventsThisIteration()
    ensures RefillsThisIteration(FiveRows()) == Some(2)
  {
    FiveRowsRefills();
  }

  lemma FiveRowsRefillsAreOne()
    ensures RefillsAreOne(FiveRows())
  {
  }

  /** The estimate at one refill a day is the refills left. */
  lemma EstimateAtOnePerDay(log: seq<Row>, perFilter: real, current: nat)
    requires RefillsAreOne(log)
    requires MeanRefillsPerFilter(log) == Some(perFilter)
    requires MeanRefillsPerDay(log) == Some(1.0)
    requires RefillsThisIteration(log) == Some(current)
    ensures EstimatedDaysRemaining(log) == Some(perFilter - current as real)
  {
  }

  /** The estimate is 1 - 2 refills at 1 refill a day: -1 day, not clamped at zero. */
  lemma FiveEventsNegativeEstimate()
    ensures EstimatedDaysRemaining(FiveRows()) == Some(-1.0)
  {
    FiveRowsRefillsAreOne();
    FiveEventsDropCompletedGeneration();
    FiveEventsMeanPerDay();
    FiveEventsThisIteration();
    EstimateAtOnePerDay(FiveRows(), 1.0, 2);
  }

  /** A refill and a replacement logged with the same timestamp, in that order. */
  function TiedEvents(): seq<Event>
  {
    [Event(5, 1, Refilled), Event(5, 1, Replaced)]
  }

  function TiedRows(): seq<Row>
  {
    [Row(5, 1, Refilled, 1, 0, 0), Row(5, 1, Replaced, 1, 1, 0)]
  }

  lemma TiedRowsSteps()
    ensures GenerationSteps(TiedRows())
  {
    var log := TiedRows();
    LabelsDiffer();
    forall i | 0 <= i < |log| ensures StepAt(log, i) {
    }
  }

  lemma TiedRowsBases()
    ensures |TiedRows()| == |TiedEvents()|
    ensures forall i :: 0 <= i < |TiedEvents()| ==> Base(TiedRows()[i]) == TiedEvents()[i] && TiedRows()[i].refills == 1
  {
  }

  /**
   * Tied events keep their spreadsheet order: the refill stays in generation 0
   * at position 0, and the replacement opens generation 1.
   */
  lemma TiedEventsLog()
    ensures Log(TiedEvents()) == TiedRows()
  {
    assert SortedByTime(TiedEvents());
    SortedLogUnchanged(TiedEvents());
    TiedRowsSteps();
    TiedRowsBases();
    EnrichIsTheOnlyStepLog(TiedEvents(), TiedRows());
  }

  /** The refill is the last refill row, at position 0. */
  lemma TiedEventsThisIteration()
    ensures RefillsThisIteration(TiedRows()) == Some(0)
  {
    var log := TiedRows();
    LabelsDiffer();
    assert Init(log) == [log[0]] && Init([log[0]]) == [];
  }
}

/**
 * The summary figures the dashboard prints: when the pitcher was last refilled
 * and the filter last replaced, how many filters were used, the mean refills
 * per filter and per day, the refills on the current filter and the days left
 * before the next replacement. Values pandas leaves undefined (NaN) or Python
 * refuses to compute (an exception) are `None`.
 */
module Statistics {
  import opened Wrappers
  import opened Columns
  import opened BritaLog

  /** `df[df.event == name]`: the rows carrying that label, in log order. */
  function Select(log: seq<Row>, name: string): (r: seq<Row>)
    ensures |r| <= |log|
    ensures forall x :: x in r <==> x in log && x.event == name
    decreases |log|
  {
    if |log| == 0 then []
    else
      assert log == Init(log) + [Last(log)];
      Select(Init(log), name) + (if Last(log).event == name then [Last(log)] else [])
  }

  /** `refills_df` */
  function RefillRows(log: seq<Row>): (r: seq<Row>)
    ensures forall x :: x in r <==> x in log && x.event == Refilled
  {
    Select(log, Refilled)
  }

  /** `replacements_df` */
  function ReplacementRows(log: seq<Row>): (r: seq<Row>)
    ensures forall x :: x in r <==> x in log && x.event == Replaced
  {
    Select(log, Replaced)
  }

  function Timestamps(rows: seq<Row>): seq<int>
  {
    seq(|rows|, i requires 0 <= i < |rows| => rows[i].timestamp)
  }

  function Filters(rows: seq<Row>): seq<int>
  {
    seq(|rows|, i requires 0 <= i < |rows| => rows[i].filter)
  }

  function Days(rows: seq<Row>): seq<int>
  {
    seq(|rows|, i requires 0 <= i < |rows| => rows[i].day)
  }

  function RefillsColumn(rows: seq<Row>): seq<int>
  {
    seq(|rows|, i requires 0 <= i < |rows| => rows[i].refills)
  }

  /** Every row of the enriched log has `refills` one. */
  predicate RefillsAreOne(log: seq<Row>)
  {
    forall x :: x in log ==> x.refills == 1
  }

  /** `recent_refilled`: the latest refill timestamp; `max` raises on no refill. */
  function RecentRefilled(log: seq<Row>): (t: Option<int>)
    ensures t.None? <==> |RefillRows(log)| == 0
    ensures t.Some? ==> (exists x :: x in RefillRows(log) && x.timestamp == t.value)
                        && forall x :: x in RefillRows(log) ==> x.timestamp <= t.value
  {
    MaxTimestampOf(RefillRows(log));
    MaxOf(Timestamps(RefillRows(log)))
  }

  /** `recent_replaced`: the latest replacement timestamp; `max` raises on no replacement. */
  function RecentReplaced(log: seq<Row>): (t: Option<int>)
    ensures t.None? <==> |ReplacementRows(log)| == 0
    ensures t.Some? ==> (exists x :: x in ReplacementRows(log) && x.timestamp == t.value)
                        && forall x :: x in ReplacementRows(log) ==> x.timestamp <= t.value
  {
    MaxTimestampOf(ReplacementRows(log));
    MaxOf(Timestamps(ReplacementRows(log)))
  }

  /** `max` of the timestamp column: raises on no rows, otherwise the latest row's timestamp. */
  lemma MaxTimestampOf(rows: seq<Row>)
    ensures MaxOf(Timestamps(rows)).None? <==> |rows| == 0
    ensures MaxOf(Timestamps(rows)).Some? ==>
      (exists x :: x in rows && x.timestamp == MaxOf(Timestamps(rows)).value)
      && forall x :: x in rows ==> x.timestamp <= MaxOf(Timestamps(rows)).value
  {
    var c := Timestamps(rows);
    var m := MaxOf(c);
    if m.Some? {
      var i :| 0 <= i < |c| && c[i] == m.value;
      assert rows[i] in rows;
      forall x | x in rows ensures x.timestamp <= m.value {
        var j :| 0 <= j < |rows| && rows[j] == x;
        assert c[j] in c;
      }
    }
  }

  /** `len(replacements_df)`: the number of filters used, one per replacement row. */
  function ReplacementCount(log: seq<Row>): (n: nat)
    ensures n == CountLabel(Bases(log), Replaced)
    ensures n <= |log|
  {
    SelectCounts(log, Replaced);
    |ReplacementRows(log)|
  }

  /** `refills_df.groupby("filter")["refills"].sum()`: one group per generation that has a refill. */
  function RefillGenerations(log: seq<Row>): (g: seq<Group>)
    ensures forall i, j :: 0 <= i < j < |g| ==> g[i].key < g[j].key
    ensures |g| > 0 <==> |RefillRows(log)| > 0
  {
    var r := RefillRows(log);
    GenerationKeys(r);
    assert |r| > 0 ==> r[0] in r;
    GroupSum(Filters(r), RefillsColumn(r))
  }

  /** Grouping rows by `filter` gives one group per generation among them. */
  lemma GenerationKeys(rows: seq<Row>)
    ensures forall i :: 0 <= i < |GroupSum(Filters(rows), RefillsColumn(rows))| ==>
      exists x :: x in rows && x.filter == GroupSum(Filters(rows), RefillsColumn(rows))[i].key
    ensures forall x :: x in rows ==>
      exists i :: 0 <= i < |GroupSum(Filters(rows), RefillsColumn(rows))| && GroupSum(Filters(rows), RefillsColumn(rows))[i].key == x.filter
  {
    var c, g := Filters(rows), GroupSum(Filters(rows), RefillsColumn(rows));
    forall i | 0 <= i < |g| ensures exists x :: x in rows && x.filter == g[i].key {
      GenerationKeysOf(rows, g[i].key);
    }
    forall x | x in rows ensures exists i :: 0 <= i < |g| && g[i].key == x.filter {
      var j :| 0 <= j < |rows| && rows[j] == x;
      assert c[j] == x.filter;
      assert c[j] in c;
    }
  }

  /** A value of the `filter` column is the generation of one of the rows. */
  lemma GenerationKeysOf(rows: seq<Row>, k: int)
    requires k in Filters(rows)
    ensures exists x :: x in rows && x.filter == k
  {
    var c := Filters(rows);
    var j :| 0 <= j < |c| && c[j] == k;
    assert rows[j] in rows;
  }

  /**
   * `mean_refills_per_filter`: the mean of the grouped sums after dropping the
   * last group; NaN unless at least two generations have refills.
   */
  function MeanRefillsPerFilter(log: seq<Row>): (m: Option<real>)
    ensures m.Some? <==> |RefillGenerations(log)| >= 2
  {
    var g := RefillGenerations(log);
    assert |g| > 0 ==> |DropLast(g)| == |g| - 1 by {
      if |g| > 0 {
        assert DropLast(g) + [g[|g| - 1]] == g;
      }
    }
    Mean(Totals(DropLast(g)))
  }

  /** `refills_df.groupby(pd.Grouper(freq="D"))["refills"].sum()`, one group per refill day. */
  function RefillDays(log: seq<Row>): (g: seq<Group>)
    ensures forall i, j :: 0 <= i < j < |g| ==> g[i].key < g[j].key
    ensures |g| > 0 <==> |RefillRows(log)| > 0
  {
    var r := RefillRows(log);
    DayKeys(r);
    assert |r| > 0 ==> r[0] in r;
    GroupSum(Days(r), RefillsColumn(r))
  }

  /** Grouping rows by day gives one group per day among them. */
  lemma DayKeys(rows: seq<Row>)
    ensures forall i :: 0 <= i < |GroupSum(Days(rows), RefillsColumn(rows))| ==>
      exists x :: x in rows && x.day == GroupSum(Days(rows), RefillsColumn(rows))[i].key
    ensures forall x :: x in rows ==>
      exists i :: 0 <= i < |GroupSum(Days(rows), RefillsColumn(rows))| && GroupSum(Days(rows), RefillsColumn(rows))[i].key == x.day
  {
    var c, g := Days(rows), GroupSum(Days(rows), RefillsColumn(rows));
    forall i | 0 <= i < |g| ensures exists x :: x in rows && x.day == g[i].key {
      DayKeysOf(rows, g[i].key);
    }
    forall x | x in rows ensures exists i :: 0 <= i < |g| && g[i].key == x.day {
      var j :| 0 <= j < |rows| && rows[j] == x;
      assert c[j] == x.day;
      assert c[j] in c;
    }
  }

  /** A value of the day column is the day of one of the rows. */
  lemma DayKeysOf(rows: seq<Row>, k: int)
    requires k in Days(rows)
    ensures exists x :: x in rows && x.day == k
  {
    var c := Days(rows);
    var j :| 0 <= j < |c| && c[j] == k;
    assert rows[j] in rows;
  }

  /** `mean_refills_per_day`: NaN exactly when there is no refill. */
  function MeanRefillsPerDay(log: seq<Row>): (m: Option<real>)
    ensures m.Some? <==> |RefillRows(log)| > 0
  {
    var g := RefillDays(log);
    Mean(Totals(g))
  }

  /** `refills_this_iteration`: `total_refills` of the last refill row. */
  function RefillsThisIteration(log: seq<Row>): (n: Option<nat>)
    ensures n.None? <==> |RefillRows(log)| == 0
    ensures n.Some? ==> exists k :: 0 <= k < |log| && log[k].event == Refilled && n.value == log[k].totalRefills
                                 && forall j :: k < j < |log| ==> log[j].event != Refilled
  {
    var r := RefillRows(log);
    if |r| == 0 then None
    else
      LastSelected(log, Refilled);
      Some(Last(r).totalRefills)
  }

  /** The last selected row is a row of the log with no row of that label after it. */
  lemma {:induction false} LastSelected(log: seq<Row>, name: string)
    requires |Select(log, name)| > 0
    ensures exists k :: 0 <= k < |log| && log[k] == Last(Select(log, name)) && log[k].event == name
                        && forall j :: k < j < |log| ==> log[j].event != name
    decreases |log|
  {
    var n := |log| - 1;
    if Last(log).event != name {
      var p := Init(log);
      assert Select(log, name) == Select(p, name);
      LastSelected(p, name);
      var k :| 0 <= k < |p| && p[k] == Last(Select(p, name)) && p[k].event == name
               && forall j :: k < j < |p| ==> p[j].event != name;
      assert log[k] == p[k];
      assert forall j :: k < j < |log| ==> log[j].event != name by {
        forall j | k < j < |log| ensures log[j].event != name {
          if j < n {
            assert log[j] == p[j];
          }
        }
      }
    } else {
      assert log[n] == Last(Select(log, name));
    }
  }

  /** The mean refills per day is defined exactly when there is a refill, and then positive. */
  lemma MeanRefillsPerDayPositive(log: seq<Row>)
    requires RefillsAreOne(log)
    ensures MeanRefillsPerDay(log).Some? <==> |RefillRows(log)| > 0
    ensures MeanRefillsPerDay(log).Some? ==> MeanRefillsPerDay(log).value > 0.0
  {
    var r := RefillRows(log);
    var g := RefillDays(log);
    var ones := RefillsColumn(r);
    assert forall i :: 0 <= i < |ones| ==> ones[i] == 1 by {
      forall i | 0 <= i < |ones| ensures ones[i] == 1 {
        assert r[i] in r;
      }
    }
    if |r| > 0 {
      assert Days(r)[0] in Days(r);
      GroupSumOfOnesPositive(Days(r), ones);
      MeanAtLeastOne(Totals(g));
    }
  }

  /** Once there is a current refill count, the mean refills per day is defined and positive. */
  lemma CurrentRefillsHavePerDay(log: seq<Row>)
    requires RefillsAreOne(log)
    ensures MeanRefillsPerDay(log).Some? ==> MeanRefillsPerDay(log).value > 0.0
    ensures RefillsThisIteration(log).Some? ==> MeanRefillsPerDay(log).Some?
  {
    MeanRefillsPerDayPositive(log);
  }

  /** Division of two possibly undefined figures; NaN propagates. */
  function Ratio(a: Option<real>, b: Option<real>): (d: Option<real>)
    requires b.Some? ==> b.value > 0.0
    ensures d.Some? <==> a.Some? && b.Some?
    ensures d.Some? ==> d.value * b.value == a.value
  {
    if a.Some? && b.Some? then Some(a.value / b.value) else None
  }

  /** `mean_days_per_filter`: refills per filter over refills per day. */
  function MeanDaysPerFilter(log: seq<Row>): (d: Option<real>)
    requires RefillsAreOne(log)
    ensures d.Some? <==> MeanRefillsPerFilter(log).Some? && MeanRefillsPerDay(log).Some?
  {
    CurrentRefillsHavePerDay(log);
    Ratio(MeanRefillsPerFilter(log), MeanRefillsPerDay(log))
  }

  /**
   * `(mean_refills_per_filter - refills_this_iteration) / mean_refills_per_day`
   * on the three figures: NaN when any of them is.
   */
  function Estimate(perFilter: Option<real>, current: Option<nat>, perDay: Option<real>): (d: Option<real>)
    requires perDay.Some? ==> perDay.value > 0.0
    ensures d.Some? <==> perFilter.Some? && current.Some? && perDay.Some?
    ensures d.Some? ==> d.value * perDay.value == perFilter.value - current.value as real
  {
    if perFilter.Some? && current.Some? then Ratio(Some(perFilter.value - current.value as real), perDay) else None
  }

  /**
   * `estimated_days_remaining`: the refills still expected on the current
   * filter, in days. Not clamped: negative once the current filter has had
   * more refills than the mean.
   */
  function EstimatedDaysRemaining(log: seq<Row>): (d: Option<real>)
    requires RefillsAreOne(log)
    ensures d.Some? <==> MeanRefillsPerFilter(log).Some? && RefillsThisIteration(log).Some?
    ensures d.Some? ==> MeanRefillsPerDay(log).Some? && MeanRefillsPerDay(log).value > 0.0
  {
    CurrentRefillsHavePerDay(log);
    Estimate(MeanRefillsPerFilter(log), RefillsThisIteration(log), MeanRefillsPerDay(log))
  }

  /** A ratio of two defined figures is their quotient. */
  lemma RatioOfDefined(a: Option<real>, b: Option<real>, x: real, y: real)
    requires a == Some(x) && b == Some(y) && y > 0.0
    ensures Ratio(a, b) == Some(x / y)
    ensures (x / y) * y == x
  {
  }

  /** `mean_days_per_filter` is `mean_refills_per_filter / mean_refills_per_day`, with a positive divisor. */
  lemma MeanDaysPerFilterEquation(log: seq<Row>, perFilter: real, perDay: real)
    requires RefillsAreOne(log)
    requires MeanRefillsPerFilter(log) == Some(perFilter) && MeanRefillsPerDay(log) == Some(perDay)
    ensures perDay > 0.0
    ensures MeanDaysPerFilter(log) == Some(perFilter / perDay)
  {
    CurrentRefillsHavePerDay(log);
    assert MeanDaysPerFilter(log) == Ratio(MeanRefillsPerFilter(log), MeanRefillsPerDay(log));
    RatioOfDefined(MeanRefillsPerFilter(log), MeanRefillsPerDay(log), perFilter, perDay);
  }

  /** The estimate of three defined figures is the refills left over the daily rate. */
  lemma EstimateOfDefined(perFilter: Option<real>, current: Option<nat>, perDay: Option<real>, f: real, c: nat, r: real)
    requires perFilter == Some(f) && current == Some(c) && perDay == Some(r) && r > 0.0
    ensures Estimate(perFilter, current, perDay) == Some((f - c as real) / r)
    ensures ((f - c as real) / r) * r == f - c as real
  {
  }

  /**
   * `estimated_days_remaining` is `(mean_refills_per_filter -
   * refills_this_iteration) / mean_refills_per_day`, with a positive divisor.
   */
  lemma EstimateEquation(log: seq<Row>, perFilter: real, current: nat, perDay: real)
    requires RefillsAreOne(log)
    requires MeanRefillsPerFilter(log) == Some(perFilter) && RefillsThisIteration(log) == Some(current)
    requires MeanRefillsPerDay(log) == Some(perDay)
    ensures perDay > 0.0
    ensures EstimatedDaysRemaining(log) == Some((perFilter - current as real) / perDay)
  {
    CurrentRefillsHavePerDay(log);
    assert EstimatedDaysRemaining(log) == Estimate(MeanRefillsPerFilter(log), RefillsThisIteration(log), MeanRefillsPerDay(log));
    EstimateOfDefined(MeanRefillsPerFilter(log), RefillsThisIteration(log), MeanRefillsPerDay(log), perFilter, current, perDay);
  }

  /**
   * Everything the dashboard's summary reports. The two timestamps are always
   * defined: without them the script stops before printing anything.
   */
  datatype Summary = Summary(
    recentRefilled: int,
    recentReplaced: int,
    replacementCount: nat,
    meanRefillsPerFilter: Option<real>,
    meanRefillsPerDay: Option<real>,
    meanDaysPerFilter: Option<real>,
    refillsThisIteration: Option<nat>,
    estimatedDaysRemaining: Option<real>)

  /**
   * The statistics block, computed from the spreadsheet's events. `max` of an
   * empty subset raises and ends the script (`None`); the later figures are
   * NaN-valued and reported as they are.
   */
  function Summarize(events: seq<Event>): (s: Option<Summary>)
    ensures s.Some? <==> CountLabel(events, Refilled) > 0 && CountLabel(events, Replaced) > 0
    ensures s.Some? ==> s.value.replacementCount == CountLabel(events, Replaced)
  {
    var log := Log(events);
    LogKeepsRows(events);
    SubsetSizesOfLog(events);
    ReplacementCountIsReplacementEvents(events);
    var refilled, replaced := RecentRefilled(log), RecentReplaced(log);
    if refilled.None? || replaced.None? then None
    else
      Some(Summary(
        refilled.value,
        replaced.value,
        ReplacementCount(log),
        MeanRefillsPerFilter(log),
        MeanRefillsPerDay(log),
        MeanDaysPerFilter(log),
        RefillsThisIteration(log),
        EstimatedDaysRemaining(log)))
  }

  /** The two subsets of the log are as large as the label counts of the spreadsheet. */
  lemma SubsetSizesOfLog(events: seq<Event>)
    ensures |RefillRows(Log(events))| == CountLabel(events, Refilled)
    ensures |ReplacementRows(Log(events))| == CountLabel(events, Replaced)
  {
    var s := SortIndex(events);
    BasesOfEnrich(s);
    SubsetsPartition(Enrich(s));
    CountLabelPermutation(s, events, Refilled);
    CountLabelPermutation(s, events, Replaced);
  }

  // ---------------------------------------------------------------------------
  // The two subsets

  lemma {:induction false} SelectCounts(log: seq<Row>, name: string)
    ensures |Select(log, name)| == CountLabel(Bases(log), name)
    decreases |log|
  {
    if |log| > 0 {
      assert Bases(Init(log)) == Init(Bases(log));
      SelectCounts(Init(log), name);
    }
  }

  lemma {:induction false} TwoLabelsAtMostAll(s: seq<Event>, a: string, b: string)
    requires a != b
    ensures CountLabel(s, a) + CountLabel(s, b) <= |s|
    decreases |s|
  {
    if |s| > 0 {
      TwoLabelsAtMostAll(Init(s), a, b);
    }
  }

  /**
   * The refill and replacement subsets share no row, each holds exactly the
   * rows of its label, and together they hold no more rows than the log.
   */
  lemma SubsetsPartition(log: seq<Row>)
    ensures forall x :: x in RefillRows(log) <==> x in log && x.event == Refilled
    ensures forall x :: x in ReplacementRows(log) <==> x in log && x.event == Replaced
    ensures forall x :: !(x in RefillRows(log) && x in ReplacementRows(log))
    ensures |RefillRows(log)| == CountLabel(Bases(log), Refilled)
    ensures |ReplacementRows(log)| == CountLabel(Bases(log), Replaced)
    ensures |RefillRows(log)| + |ReplacementRows(log)| <= |log|
  {
    SelectCounts(log, Refilled);
    SelectCounts(log, Replaced);
    TwoLabelsAtMostAll(Bases(log), Refilled, Replaced);
  }

  /**
   * The reported number of filters is the number of replacement events in the
   * spreadsheet, which is also the generation of the log's last row.
   */
  lemma ReplacementCountIsReplacementEvents(events: seq<Event>)
    ensures ReplacementCount(Log(events)) == CountLabel(events, Replaced)
    ensures |events| > 0 ==> ReplacementCount(Log(events)) == Last(Log(events)).filter
  {
    var s := SortIndex(events);
    var log := Enrich(s);
    BasesOfEnrich(s);
    SelectCounts(log, Replaced);
    CountLabelPermutation(s, events, Replaced);
    if |events| > 0 {
      LastFilterCountsAll(s);
    }
  }

  // ---------------------------------------------------------------------------
  // Order of the subsets

  /** The rows are in timestamp order (`SortedByTime` on the rows of the log). */
  predicate RowsByTime(rows: seq<Row>)
  {
    forall i, j :: 0 <= i < j < |rows| ==> rows[i].timestamp <= rows[j].timestamp
  }

  lemma RowsByTimeOfBases(rows: seq<Row>)
    ensures RowsByTime(rows) <==> SortedByTime(Bases(rows))
  {
    var b := Bases(rows);
    assert forall i :: 0 <= i < |rows| ==> b[i].timestamp == rows[i].timestamp;
  }

  predicate RowsByFilter(rows: seq<Row>)
  {
    forall i, j :: 0 <= i < j < |rows| ==> rows[i].filter <= rows[j].filter
  }

  lemma {:induction false} SelectKeepsTimeOrder(log: seq<Row>, name: string)
    requires RowsByTime(log)
    ensures RowsByTime(Select(log, name))
    decreases |log|
  {
    if |log| > 0 {
      SelectKeepsTimeOrder(Init(log), name);
      var p := Select(Init(log), name);
      forall i | 0 <= i < |p| ensures p[i].timestamp <= Last(log).timestamp {
        assert p[i] in p;
        var m :| 0 <= m < |Init(log)| && Init(log)[m] == p[i];
      }
    }
  }

  lemma {:induction false} SelectKeepsFilterOrder(log: seq<Row>, name: string)
    requires RowsByFilter(log)
    ensures RowsByFilter(Select(log, name))
    decreases |log|
  {
    if |log| > 0 {
      SelectKeepsFilterOrder(Init(log), name);
      var p := Select(Init(log), name);
      forall i | 0 <= i < |p| ensures p[i].filter <= Last(log).filter {
        assert p[i] in p;
        var m :| 0 <= m < |Init(log)| && Init(log)[m] == p[i];
      }
    }
  }

  lemma StepsByFilter(log: seq<Row>)
    requires GenerationSteps(log)
    ensures RowsByFilter(log)
  {
    forall i, j | 0 <= i < j < |log| ensures log[i].filter <= log[j].filter {
      StepsMonotone(log, i, j);
    }
  }

  lemma EnrichByTime(s: seq<Event>)
    requires SortedByTime(s)
    ensures RowsByTime(Enrich(s))
  {
    var log := Enrich(s);
    forall i, j | 0 <= i < j < |log| ensures log[i].timestamp <= log[j].timestamp {
      assert Base(log[i]) == s[i] && Base(log[j]) == s[j];
    }
  }

  /** The enriched log is in timestamp order. */
  lemma LogByTime(events: seq<Event>)
    ensures RowsByTime(Log(events))
  {
    EnrichByTime(SortIndex(events));
  }

  /**
   * The enriched log meets what the statistics lemmas assume of a log: the
   * generation steps, `refills` one, timestamp order, and only the two known
   * events when the spreadsheet holds no other.
   */
  lemma LogMeetsStatisticsAssumptions(events: seq<Event>)
    ensures GenerationSteps(Log(events)) && RefillsAreOne(Log(events)) && RowsByTime(Log(events))
    ensures (forall e :: e in events ==> e.name == Refilled || e.name == Replaced) ==> OnlyKnownEvents(Log(events))
  {
    var log := Log(events);
    EnrichSteps(SortIndex(events));
    LogKeepsRows(events);
    LogByTime(events);
    if forall e :: e in events ==> e.name == Refilled || e.name == Replaced {
      forall i | 0 <= i < |log| ensures log[i].event == Refilled || log[i].event == Replaced {
        assert Bases(log)[i] in multiset(Bases(log));
      }
    }
  }

  /**
   * In a log in timestamp order (`LogByTime`), `recent_refilled` and
   * `recent_replaced` are the timestamps of the last refill and the last
   * replacement row, and undefined when there is none.
   */
  lemma RecentIsLastOfSubset(log: seq<Row>)
    requires RowsByTime(log)
    ensures RecentRefilled(log).None? <==> |RefillRows(log)| == 0
    ensures |RefillRows(log)| > 0 ==> RecentRefilled(log) == Some(Last(RefillRows(log)).timestamp)
    ensures RecentReplaced(log).None? <==> |ReplacementRows(log)| == 0
    ensures |ReplacementRows(log)| > 0 ==> RecentReplaced(log) == Some(Last(ReplacementRows(log)).timestamp)
  {
    SelectKeepsTimeOrder(log, Refilled);
    SelectKeepsTimeOrder(log, Replaced);
    if |RefillRows(log)| > 0 {
      LatestOfOrdered(RefillRows(log));
    }
    if |ReplacementRows(log)| > 0 {
      LatestOfOrdered(ReplacementRows(log));
    }
  }

  lemma LatestOfOrdered(rows: seq<Row>)
    requires RowsByTime(rows) && |rows| > 0
    ensures MaxOf(Timestamps(rows)) == Some(Last(rows).timestamp)
  {
    var c := Timestamps(rows);
    var m := MaxOf(c);
    var i :| 0 <= i < |c| && c[i] == m.value;
    assert Last(c) in c;
  }

  // ---------------------------------------------------------------------------
  // Mean refills per filter

  /**
   * The mean refills per filter is defined exactly when the refills span at
   * least two generations: `[:-1]` leaves nothing to average otherwise.
   */
  lemma MeanRefillsPerFilterDefined(log: seq<Row>)
    ensures MeanRefillsPerFilter(log).Some?
        <==> exists x, y :: x in RefillRows(log) && y in RefillRows(log) && x.filter != y.filter
  {
    var r := RefillRows(log);
    var f := Filters(r);
    GroupSumTwoGroups(f, RefillsColumn(r));
    if exists x, y :: x in r && y in r && x.filter != y.filter {
      var x, y :| x in r && y in r && x.filter != y.filter;
      var i :| 0 <= i < |r| && r[i] == x;
      var j :| 0 <= j < |r| && r[j] == y;
      assert f[i] != f[j];
    }
    if exists i, j :: 0 <= i < |f| && 0 <= j < |f| && f[i] != f[j] {
      var i, j :| 0 <= i < |f| && 0 <= j < |f| && f[i] != f[j];
      assert r[i] in r && r[j] in r;
    }
  }

  /**
   * Each group `[:-1]` keeps is a generation and its total is the number of
   * refill rows in that generation.
   */
  lemma KeptGroupsCountRefills(log: seq<Row>)
    requires RefillsAreOne(log)
    ensures forall i :: 0 <= i < |DropLast(RefillGenerations(log))| ==>
      DropLast(RefillGenerations(log))[i].total == Occurrences(Filters(RefillRows(log)), DropLast(RefillGenerations(log))[i].key)
  {
    var r := RefillRows(log);
    var g := RefillGenerations(log);
    var kept := DropLast(g);
    var ones := RefillsColumn(r);
    assert forall i :: 0 <= i < |ones| ==> ones[i] == 1 by {
      forall i | 0 <= i < |ones| ensures ones[i] == 1 {
        assert r[i] in r;
      }
    }
    forall i | 0 <= i < |kept| ensures kept[i].total == Occurrences(Filters(r), kept[i].key) {
      assert kept[i] == g[i];
      SumWhereOfOnes(Filters(r), ones, g[i].key);
    }
  }

  /** Each averaged generation has at least one refill, so the mean is at least one. */
  lemma MeanRefillsPerFilterAtLeastOne(log: seq<Row>)
    requires RefillsAreOne(log)
    ensures MeanRefillsPerFilter(log).Some? ==> MeanRefillsPerFilter(log).value >= 1.0
  {
    var r := RefillRows(log);
    var ones := RefillsColumn(r);
    assert forall i :: 0 <= i < |ones| ==> ones[i] == 1 by {
      forall i | 0 <= i < |ones| ensures ones[i] == 1 {
        assert r[i] in r;
      }
    }
    GroupSumOfOnesPositive(Filters(r), ones);
    var kept := Totals(DropLast(RefillGenerations(log)));
    if |kept| > 0 {
      MeanAtLeastOne(kept);
    }
  }

  /** Without a replacement every row is in generation 0 and there is nothing to average. */
  lemma NoReplacementNoMean(events: seq<Event>)
    requires CountLabel(events, Replaced) == 0
    ensures MeanRefillsPerFilter(Log(events)).None?
  {
    var log := Log(events);
    AllInGenerationZero(events);
    MeanRefillsPerFilterDefined(log);
  }

  lemma AllInGenerationZero(events: seq<Event>)
    requires CountLabel(events, Replaced) == 0
    ensures forall x :: x in Log(events) ==> x.filter == 0
  {
    var s := SortIndex(events);
    CountLabelPermutation(s, events, Replaced);
    forall i | 0 <= i < |Log(events)| ensures Log(events)[i].filter == 0 {
      LogInTimeOrder(events, i);
      CountLabelPrefix(s, i + 1, Replaced);
    }
  }

  /**
   * `[:-1]` drops the group of the latest refill's generation, and every
   * averaged group is an earlier generation. That generation is the current
   * one (the last row's) exactly when the current generation has a refill;
   * otherwise a completed generation is dropped instead.
   */
  lemma DroppedGenerationIsLatestRefill(log: seq<Row>)
    requires GenerationSteps(log)
    requires |RefillRows(log)| > 0
    ensures |RefillGenerations(log)| > 0
    ensures Last(RefillGenerations(log)).key == Last(RefillRows(log)).filter
    ensures forall i :: 0 <= i < |RefillGenerations(log)| - 1 ==>
      RefillGenerations(log)[i].key < Last(RefillRows(log)).filter
    ensures Last(RefillRows(log)).filter <= Last(log).filter
    ensures Last(RefillRows(log)).filter == Last(log).filter
        <==> exists x :: x in RefillRows(log) && x.filter == Last(log).filter
  {
    StepsByFilter(log);
    SelectKeepsFilterOrder(log, Refilled);
    LastGroupOfOrderedRows(RefillRows(log));
    LatestRefillInLatestGeneration(log);
  }

  /** Grouping rows in generation order by `filter`: the last group is the last row's generation. */
  lemma LastGroupOfOrderedRows(r: seq<Row>)
    requires RowsByFilter(r) && |r| > 0
    ensures |GroupSum(Filters(r), RefillsColumn(r))| > 0
    ensures Last(GroupSum(Filters(r), RefillsColumn(r))).key == Last(r).filter
    ensures forall i :: 0 <= i < |GroupSum(Filters(r), RefillsColumn(r))| - 1 ==>
      GroupSum(Filters(r), RefillsColumn(r))[i].key < Last(r).filter
  {
    var f := Filters(r);
    var g := GroupSum(f, RefillsColumn(r));
    GroupSumLastKey(f, RefillsColumn(r));
    var i :| 0 <= i < |r| && f[i] == Last(g).key;
    assert f[i] == r[i].filter;
    assert Last(g).key <= Last(r).filter;
    assert f[|r| - 1] == Last(r).filter;
    assert Last(r).filter <= Last(g).key;
  }

  /** The latest refill's generation is at most the current one, and equal exactly when the current has a refill. */
  lemma LatestRefillInLatestGeneration(log: seq<Row>)
    requires GenerationSteps(log) && RowsByFilter(RefillRows(log))
    requires |RefillRows(log)| > 0
    ensures Last(RefillRows(log)).filter <= Last(log).filter
    ensures Last(RefillRows(log)).filter == Last(log).filter
        <==> exists x :: x in RefillRows(log) && x.filter == Last(log).filter
  {
    var r := RefillRows(log);
    assert Last(r) in r;
    var m :| 0 <= m < |log| && log[m] == Last(r);
    StepsMonotone(log, m, |log| - 1);
    if exists x :: x in r && x.filter == Last(log).filter {
      var x :| x in r && x.filter == Last(log).filter;
      var j :| 0 <= j < |r| && r[j] == x;
    }
  }

  // ---------------------------------------------------------------------------
  // Refills on the current filter

  /** Every row is a refill or a replacement. */
  predicate OnlyKnownEvents(log: seq<Row>)
  {
    forall i :: 0 <= i < |log| ==> log[i].event == Refilled || log[i].event == Replaced
  }

  /** Extending a prefix of the log by a row that is not a refill leaves the refills as they are. */
  lemma RefillRowsSkip(log: seq<Row>, i: int)
    requires 0 <= i < |log| && log[i].event != Refilled
    ensures RefillRows(log[..i + 1]) == RefillRows(log[..i])
  {
    assert Init(log[..i + 1]) == log[..i] && Last(log[..i + 1]) == log[i];
  }

  /** Extending a prefix of the log by a refill row appends it to the refills. */
  lemma RefillRowsTake(log: seq<Row>, i: int)
    requires 0 <= i < |log| && log[i].event == Refilled
    ensures Filters(RefillRows(log[..i + 1])) == Filters(RefillRows(log[..i])) + [log[i].filter]
  {
    assert Init(log[..i + 1]) == log[..i] && Last(log[..i + 1]) == log[i];
    var before := RefillRows(log[..i]);
    assert RefillRows(log[..i + 1]) == before + [log[i]];
    assert Filters(before + [log[i]]) == Filters(before) + [log[i].filter];
  }

  /** No refill before a replacement row is in the generation it opens. */
  lemma NoEarlierRefillInNewGeneration(log: seq<Row>, i: int)
    requires GenerationSteps(log)
    requires 0 <= i < |log| && log[i].event == Replaced
    ensures Occurrences(Filters(RefillRows(log[..i])), log[i].filter) == 0
  {
    var before := RefillRows(log[..i]);
    forall j | 0 <= j < |before| ensures Filters(before)[j] != log[i].filter {
      assert before[j] in before;
      var m :| 0 <= m < i && log[..i][m] == before[j];
      StepsMonotone(log, m, i - 1);
      assert StepAt(log, i);
    }
    OccurrencesAbsent(Filters(before), log[i].filter);
  }

  /** The claim of `PositionCountsGenerationRefills` at a replacement row. */
  lemma PositionAtReplacement(log: seq<Row>, i: int)
    requires GenerationSteps(log)
    requires 0 <= i < |log| && log[i].event == Replaced
    ensures Occurrences(Filters(RefillRows(log[..i + 1])), log[i].filter) == 0
    ensures log[i].filter > 0 && log[i].totalRefills == 0
  {
    RefillRowsSkip(log, i);
    NoEarlierRefillInNewGeneration(log, i);
    assert StepAt(log, i);
  }

  /** At a refill row the refill count of its generation goes up by one. */
  lemma PositionAtRefill(log: seq<Row>, i: int)
    requires GenerationSteps(log)
    requires 0 <= i < |log| && log[i].event == Refilled
    ensures Occurrences(Filters(RefillRows(log[..i + 1])), log[i].filter)
         == Occurrences(Filters(RefillRows(log[..i])), log[i].filter) + 1
    ensures i == 0 ==>
      log[i].filter == 0 && log[i].totalRefills == 0 && Occurrences(Filters(RefillRows(log[..i])), log[i].filter) == 0
    ensures i > 0 ==> log[i].filter == log[i - 1].filter && log[i].totalRefills == log[i - 1].totalRefills + 1
  {
    RefillRowsTake(log, i);
    assert StepAt(log, i);
    OccurrencesSnoc(Filters(RefillRows(log[..i])), log[i].filter, log[i].filter);
    if i == 0 {
      assert log[..0] == [];
    }
  }

  /**
   * Row i's position counts the refills of its generation up to and including
   * row i, less one, except in generation 0 where it is that count less one.
   */
  predicate PositionCountsRefills(log: seq<Row>, i: int)
    requires 0 <= i < |log|
  {
    Occurrences(Filters(RefillRows(log[..i + 1])), log[i].filter)
    == log[i].totalRefills + (if log[i].filter == 0 then 1 else 0)
  }

  lemma PositionStepAtRefill(log: seq<Row>, i: int)
    requires GenerationSteps(log)
    requires 0 < i < |log| && log[i].event == Refilled
    requires PositionCountsRefills(log, i - 1)
    ensures PositionCountsRefills(log, i)
  {
    PositionAtRefill(log, i);
    assert log[..i - 1 + 1] == log[..i];
  }

  /**
   * With only refills and replacements, a row's position counts the refills of
   * its generation up to and including it, less one: the replacement row holds
   * position 0. Generation 0 has no replacement row, so there the position is
   * one less than that count.
   */
  lemma {:induction false} PositionCountsGenerationRefills(log: seq<Row>, i: int)
    requires GenerationSteps(log) && OnlyKnownEvents(log)
    requires 0 <= i < |log|
    ensures PositionCountsRefills(log, i)
    decreases i
  {
    if log[i].event == Replaced {
      PositionAtReplacement(log, i);
    } else if i == 0 {
      PositionAtRefill(log, i);
    } else {
      PositionCountsGenerationRefills(log, i - 1);
      PositionStepAtRefill(log, i);
    }
  }

  /** The last refill row of a prefix is a row of it, with no refill after it. */
  lemma {:induction false} LatestRefill(log: seq<Row>, n: int)
    requires 0 <= n <= |log|
    requires |RefillRows(log[..n])| > 0
    ensures exists k :: 0 <= k < n && log[k] == Last(RefillRows(log[..n]))
                        && RefillRows(log[..n]) == RefillRows(log[..k + 1])
    decreases n
  {
    assert Init(log[..n]) == log[..n - 1] && Last(log[..n]) == log[n - 1];
    if log[n - 1].event != Refilled {
      assert RefillRows(log[..n]) == RefillRows(log[..n - 1]);
      LatestRefill(log, n - 1);
    } else {
      assert log[..n - 1 + 1] == log[..n];
    }
  }

  /**
   * `refills_this_iteration` is the number of refills in the latest refill's
   * generation (the group `[:-1]` drops), less one in generation 0, where no
   * replacement row takes position 0.
   */
  lemma RefillsThisIterationCounts(log: seq<Row>)
    requires GenerationSteps(log) && OnlyKnownEvents(log) && RefillsAreOne(log)
    requires |RefillRows(log)| > 0
    ensures |RefillGenerations(log)| > 0
    ensures RefillsThisIteration(log).Some?
    ensures RefillsThisIteration(log).value
         == Last(RefillGenerations(log)).total - (if Last(RefillRows(log)).filter == 0 then 1 else 0)
  {
    var r := RefillRows(log);
    var g := RefillGenerations(log);
    assert log[..|log|] == log;
    LatestRefill(log, |log|);
    var k :| 0 <= k < |log| && log[k] == Last(r) && r == RefillRows(log[..k + 1]);
    PositionCountsGenerationRefills(log, k);
    DroppedGenerationIsLatestRefill(log);
    var ones := RefillsColumn(r);
    assert forall i :: 0 <= i < |ones| ==> ones[i] == 1 by {
      forall i | 0 <= i < |ones| ensures ones[i] == 1 {
        assert r[i] in r;
      }
    }
    SumWhereOfOnes(Filters(r), ones, Last(g).key);
  }

  // ---------------------------------------------------------------------------
  // Estimated days remaining

  /** The sign of the estimate on its three figures. */
  lemma EstimateSignOf(perFilter: Option<real>, current: Option<nat>, perDay: Option<real>)
    requires perDay.Some? ==> perDay.value > 0.0
    requires Estimate(perFilter, current, perDay).Some?
    ensures Estimate(perFilter, current, perDay).value < 0.0 <==> current.value as real > perFilter.value
    ensures Estimate(perFilter, current, perDay).value == 0.0 <==> current.value as real == perFilter.value
  {
    var d := Estimate(perFilter, current, perDay).value;
    if d < 0.0 {
      assert d * perDay.value < 0.0;
    } else if d > 0.0 {
      assert d * perDay.value > 0.0;
    }
  }

  /**
   * The estimate is negative exactly when the current filter has had more
   * refills than the mean, zero exactly when as many: it is not clamped.
   */
  lemma EstimateSign(log: seq<Row>)
    requires RefillsAreOne(log)
    requires EstimatedDaysRemaining(log).Some?
    ensures EstimatedDaysRemaining(log).value < 0.0
        <==> RefillsThisIteration(log).value as real > MeanRefillsPerFilter(log).value
    ensures EstimatedDaysRemaining(log).value == 0.0
        <==> RefillsThisIteration(log).value as real == MeanRefillsPerFilter(log).value
  {
    var perFilter, current, perDay := MeanRefillsPerFilter(log), RefillsThisIteration(log), MeanRefillsPerDay(log);
    CurrentRefillsHavePerDay(log);
    assert EstimatedDaysRemaining(log) == Estimate(perFilter, current, perDay);
    EstimateSignOf(perFilter, current, perDay);
  }
}

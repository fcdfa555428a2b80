/**
 * The enriched event log of the water-filter dashboard: the spreadsheet rows
 * sorted by timestamp, each given a constant `refills` of one, its filter
 * generation (`filter`, the running count of replacements) and its position
 * within that generation (`totalRefills`).
 */
module BritaLog {
  import opened Columns

  const Replaced := "Brita filter replaced"
  const Refilled := "Brita pitcher refilled"

  /** The two labels the statistics look for are different strings (they differ in length). */
  lemma LabelsDiffer()
    ensures Refilled != Replaced
  {
    assert |Refilled| == 22 && |Replaced| == 21;
  }

  /**
   * One spreadsheet row. The timestamp is already parsed and localised; `day`
   * is the calendar day it falls on in the dashboard's time zone, supplied by
   * the caller.
   */
  datatype Event = Event(timestamp: int, day: int, name: string)

  /** One row of the enriched log. */
  datatype Row = Row(timestamp: int, day: int, event: string, refills: int, filter: nat, totalRefills: nat)

  /** The spreadsheet row a log row was derived from. */
  function Base(r: Row): Event
  {
    Event(r.timestamp, r.day, r.event)
  }

  function Bases(log: seq<Row>): seq<Event>
  {
    seq(|log|, i requires 0 <= i < |log| => Base(log[i]))
  }

  /** Number of events carrying `name`. */
  function CountLabel(s: seq<Event>, name: string): nat
  {
    if |s| == 0 then 0 else CountLabel(Init(s), name) + (if Last(s).name == name then 1 else 0)
  }

  lemma {:induction false} CountLabelAppend(x: seq<Event>, y: seq<Event>, name: string)
    ensures CountLabel(x + y, name) == CountLabel(x, name) + CountLabel(y, name)
    decreases |y|
  {
    if |y| == 0 {
      assert x + y == x;
    } else {
      assert Init(x + y) == x + Init(y) && Last(x + y) == Last(y);
      CountLabelAppend(x, Init(y), name);
    }
  }

  /** Taking one event out of a sequence. */
  lemma CountLabelRemove(b: seq<Event>, j: int, name: string)
    requires 0 <= j < |b|
    ensures CountLabel(b, name)
         == CountLabel(b[..j] + b[j + 1..], name) + (if b[j].name == name then 1 else 0)
    ensures multiset(b[..j] + b[j + 1..]) == multiset(b) - multiset{b[j]}
  {
    assert b == b[..j] + [b[j]] + b[j + 1..];
    CountLabelAppend(b[..j] + [b[j]], b[j + 1..], name);
    CountLabelAppend(b[..j], [b[j]], name);
    CountLabelAppend(b[..j], b[j + 1..], name);
    assert Init([b[j]]) == [];
  }

  /** Counting a label does not depend on the order of the events. */
  lemma {:induction false} CountLabelPermutation(a: seq<Event>, b: seq<Event>, name: string)
    requires multiset(a) == multiset(b)
    ensures CountLabel(a, name) == CountLabel(b, name)
    decreases |a|
  {
    if |a| == 0 {
      assert |b| == |multiset(b)| == 0;
    } else {
      var x, rest := Last(a), Init(a);
      assert a == rest + [x];
      assert multiset(rest) == multiset(a) - multiset{x};
      assert x in multiset(b);
      var j :| 0 <= j < |b| && b[j] == x;
      var others := b[..j] + b[j + 1..];
      CountLabelRemove(b, j, name);
      assert multiset(rest) == multiset(others);
      CountLabelPermutation(rest, others, name);
    }
  }

  /** A prefix holds no more events of a label than the whole. */
  lemma CountLabelPrefix(s: seq<Event>, k: int, name: string)
    requires 0 <= k <= |s|
    ensures CountLabel(s[..k], name) <= CountLabel(s, name)
  {
    assert s == s[..k] + s[k..];
    CountLabelAppend(s[..k], s[k..], name);
  }

  // ---------------------------------------------------------------------------
  // Sorting by timestamp (`set_index("timestamp").sort_index()`)

  predicate SortedByTime(s: seq<Event>)
  {
    forall i, j :: 0 <= i < j < |s| ==> s[i].timestamp <= s[j].timestamp
  }

  /** A permutation of `base` plus `e` has no timestamp below a bound they all meet. */
  lemma NoEarlierThan(t: seq<Event>, base: seq<Event>, e: Event, bound: int)
    requires multiset(t) == multiset(base) + multiset{e}
    requires forall j :: 0 <= j < |base| ==> bound <= base[j].timestamp
    requires bound <= e.timestamp
    ensures forall j :: 0 <= j < |t| ==> bound <= t[j].timestamp
  {
    forall j | 0 <= j < |t| ensures bound <= t[j].timestamp {
      assert t[j] in multiset(t);
      if t[j] != e {
        assert t[j] in multiset(base);
        var k :| 0 <= k < |base| && base[k] == t[j];
      }
    }
  }

  lemma PrependSorted(x: Event, t: seq<Event>)
    requires SortedByTime(t)
    requires forall j :: 0 <= j < |t| ==> x.timestamp <= t[j].timestamp
    ensures SortedByTime([x] + t)
  {
    var r := [x] + t;
    forall i, j | 0 <= i < j < |r| ensures r[i].timestamp <= r[j].timestamp {
      if i > 0 {
        assert r[i] == t[i - 1] && r[j] == t[j - 1];
      } else {
        assert r[j] == t[j - 1];
      }
    }
  }

  function InsertByTime(e: Event, s: seq<Event>): (r: seq<Event>)
    requires SortedByTime(s)
    ensures SortedByTime(r)
    ensures |r| == |s| + 1
    ensures multiset(r) == multiset(s) + multiset{e}
    decreases |s|
  {
    if |s| == 0 then [e]
    else if e.timestamp < s[0].timestamp then
      assert forall j :: 0 <= j < |s| ==> e.timestamp <= s[j].timestamp;
      PrependSorted(e, s);
      [e] + s
    else
      var t := InsertByTime(e, s[1..]);
      assert s == [s[0]] + s[1..];
      assert multiset(s) == multiset{s[0]} + multiset(s[1..]);
      NoEarlierThan(t, s[1..], e, s[0].timestamp);
      PrependSorted(s[0], t);
      [s[0]] + t
  }

  /**
   * The events in timestamp order, by insertion. The sort is stable: events
   * with equal timestamps keep their spreadsheet order, and events already in
   * order come back unchanged (`SortIndexOfSorted`), as the dataframe's
   * `sort_index()` returns an already monotonic index as it stands.
   */
  function SortIndex(events: seq<Event>): (r: seq<Event>)
    ensures SortedByTime(r)
    ensures |r| == |events|
    ensures multiset(r) == multiset(events)
    decreases |events|
  {
    if |events| == 0 then []
    else
      assert events == Init(events) + [Last(events)];
      InsertByTime(Last(events), SortIndex(Init(events)))
  }

  /** An event no earlier than every event of a sorted sequence goes at its end. */
  lemma {:induction false} InsertAfterAll(e: Event, s: seq<Event>)
    requires SortedByTime(s)
    requires forall j :: 0 <= j < |s| ==> s[j].timestamp <= e.timestamp
    ensures InsertByTime(e, s) == s + [e]
    decreases |s|
  {
    if |s| > 0 {
      InsertAfterAll(e, s[1..]);
      assert s == [s[0]] + s[1..];
    }
  }

  /** Events already in timestamp order, ties included, are left as they are. */
  lemma {:induction false} SortIndexOfSorted(events: seq<Event>)
    requires SortedByTime(events)
    ensures SortIndex(events) == events
    decreases |events|
  {
    if |events| > 0 {
      var p, x := Init(events), Last(events);
      assert events == p + [x];
      assert forall j :: 0 <= j < |p| ==> p[j] == events[j];
      assert SortedByTime(p);
      assert forall j :: 0 <= j < |p| ==> p[j].timestamp <= x.timestamp;
      SortIndexOfSorted(p);
      InsertAfterAll(x, p);
    }
  }

  /** Distinct events never share a timestamp. */
  predicate TieFree(s: seq<Event>)
  {
    forall x, y :: x in s && y in s && x.timestamp == y.timestamp ==> x == y
  }

  /** Two sorted arrangements of the same tie-free events start with the same event. */
  lemma SortedHeadsAgree(a: seq<Event>, b: seq<Event>)
    requires SortedByTime(a) && SortedByTime(b)
    requires multiset(a) == multiset(b)
    requires TieFree(a)
    requires |a| > 0
    ensures |b| == |a| && a[0] == b[0]
  {
    assert |b| == |multiset(b)| == |multiset(a)| == |a|;
    assert a[0] in multiset(b) && b[0] in multiset(a);
    var j :| 0 <= j < |b| && b[j] == a[0];
    var i :| 0 <= i < |a| && a[i] == b[0];
    assert a[0].timestamp <= a[i].timestamp;
    assert b[0].timestamp <= b[j].timestamp;
  }

  lemma SortedTail(a: seq<Event>)
    requires SortedByTime(a) && |a| > 0
    ensures SortedByTime(a[1..])
    ensures TieFree(a) ==> TieFree(a[1..])
    ensures multiset(a[1..]) == multiset(a) - multiset{a[0]}
  {
    assert a == [a[0]] + a[1..];
    assert forall x :: x in a[1..] ==> x in a;
  }

  /** Two sorted arrangements of the same tie-free events agree on the head, and their tails are again such arrangements. */
  lemma SortedTailsAgree(a: seq<Event>, b: seq<Event>)
    requires SortedByTime(a) && SortedByTime(b)
    requires multiset(a) == multiset(b)
    requires TieFree(a)
    requires |a| > 0
    ensures |b| == |a| && a[0] == b[0]
    ensures SortedByTime(a[1..]) && SortedByTime(b[1..]) && TieFree(a[1..])
    ensures multiset(a[1..]) == multiset(b[1..])
  {
    SortedHeadsAgree(a, b);
    SortedTail(a);
    SortedTail(b);
  }

  /** Without ties there is exactly one arrangement of the events in timestamp order. */
  lemma {:induction false} SortedPermutationUnique(a: seq<Event>, b: seq<Event>)
    requires SortedByTime(a) && SortedByTime(b)
    requires multiset(a) == multiset(b)
    requires TieFree(a)
    ensures a == b
    decreases |a|
  {
    if |a| == 0 {
      assert |b| == |multiset(b)| == 0;
    } else {
      SortedTailsAgree(a, b);
      SortedPermutationUnique(a[1..], b[1..]);
      assert a == [a[0]] + a[1..] && b == [b[0]] + b[1..];
    }
  }

  // ---------------------------------------------------------------------------
  // The derived columns

  /** `df["event"] == "Brita filter replaced"`, as the integers cumsum adds up. */
  function ReplacedMask(s: seq<Event>): seq<nat>
  {
    seq(|s|, i requires 0 <= i < |s| => if s[i].name == Replaced then 1 else 0)
  }

  /** `df["filter"]`: the cumulative sum of the replacement mask. */
  function FilterColumn(s: seq<Event>): (f: seq<nat>)
    ensures |f| == |s|
  {
    CumSum(ReplacedMask(s))
  }

  /** `df["total_refills"]`: `groupby("filter").cumcount()`. */
  function TotalRefillsColumn(s: seq<Event>): (t: seq<nat>)
    ensures |t| == |s|
  {
    CumCount(FilterColumn(s))
  }

  /**
   * The three column assignments on the sorted table: every row keeps its
   * timestamp, day and label, gets `refills` one, and its generation and
   * position.
   */
  function Enrich(s: seq<Event>): (log: seq<Row>)
    ensures |log| == |s|
    ensures forall i :: 0 <= i < |s| ==> Base(log[i]) == s[i] && log[i].refills == 1
  {
    var f := FilterColumn(s);
    var t := TotalRefillsColumn(s);
    seq(|s|, i requires 0 <= i < |s| => Row(s[i].timestamp, s[i].day, s[i].name, 1, f[i], t[i]))
  }

  /** `brita_log()` after the rows are read and parsed. */
  function Log(events: seq<Event>): (log: seq<Row>)
    ensures |log| == |events|
    ensures multiset(Bases(log)) == multiset(events)
  {
    BasesOfEnrich(SortIndex(events));
    Enrich(SortIndex(events))
  }

  // ---------------------------------------------------------------------------
  // Properties of the enrichment

  lemma {:induction false} MaskSumCountsReplacements(s: seq<Event>)
    ensures Sum(ReplacedMask(s)) == CountLabel(s, Replaced)
    decreases |s|
  {
    if |s| > 0 {
      assert Init(ReplacedMask(s)) == ReplacedMask(Init(s));
      MaskSumCountsReplacements(Init(s));
    }
  }

  /** Each row's generation is the number of replacement rows at or before it. */
  lemma FilterCountsReplacements(s: seq<Event>, i: int)
    requires 0 <= i < |s|
    ensures Enrich(s)[i].filter == CountLabel(s[..i + 1], Replaced)
  {
    assert ReplacedMask(s)[..i + 1] == ReplacedMask(s[..i + 1]);
    MaskSumCountsReplacements(s[..i + 1]);
  }

  /** The last row's generation is the number of replacements in the whole log. */
  lemma LastFilterCountsAll(s: seq<Event>)
    requires |s| > 0
    ensures Last(Enrich(s)).filter == CountLabel(s, Replaced)
  {
    var m := ReplacedMask(s);
    MaskSumCountsReplacements(s);
    assert m[..|m|] == m;
    assert Last(FilterColumn(s)) == Sum(m);
    assert Last(Enrich(s)).filter == Last(FilterColumn(s));
  }

  /**
   * The generation starts at 0 before the first row, goes up by exactly one on
   * each replacement row and stays the same on every other row.
   */
  lemma FilterStep(s: seq<Event>, i: int)
    requires 0 <= i < |s|
    ensures Enrich(s)[i].filter
         == (if i == 0 then 0 else Enrich(s)[i - 1].filter) + (if s[i].name == Replaced then 1 else 0)
  {
    var m := ReplacedMask(s);
    if i == 0 {
      assert Init(m[..1]) == [] && Last(m[..1]) == m[0];
      assert Sum(m[..1]) == m[0];
    } else {
      assert Init(m[..i + 1]) == m[..i];
    }
  }

  /** The generation never decreases along the log. */
  lemma {:induction false} FilterMonotone(s: seq<Event>, i: int, j: int)
    requires 0 <= i <= j < |s|
    ensures Enrich(s)[i].filter <= Enrich(s)[j].filter
    decreases j - i
  {
    if i < j {
      FilterStep(s, j);
      FilterMonotone(s, i, j - 1);
    }
  }

  /**
   * The position is 0 on the first row of each generation and one more than
   * the previous row's on every later row of it, whatever the row's label.
   */
  lemma TotalRefillsStep(s: seq<Event>, i: int)
    requires 0 <= i < |s|
    ensures Enrich(s)[i].totalRefills
         == if i == 0 || Enrich(s)[i - 1].filter != Enrich(s)[i].filter then 0
            else Enrich(s)[i - 1].totalRefills + 1
  {
    var log, f := Enrich(s), FilterColumn(s);
    if i == 0 {
      assert f[..0] == [];
    } else if log[i - 1].filter != log[i].filter {
      forall j | 0 <= j < i ensures f[..i][j] != f[i] {
        FilterMonotone(s, j, i - 1);
        FilterMonotone(s, i - 1, i);
      }
      OccurrencesAbsent(f[..i], f[i]);
    } else {
      assert Init(f[..i]) == f[..i - 1];
    }
  }

  /**
   * A row is at position 0 exactly when it is the first row of the log or a
   * replacement row: a replacement row always opens its generation.
   */
  lemma PositionZeroIffReplacement(s: seq<Event>, i: int)
    requires 0 <= i < |s|
    ensures Enrich(s)[i].totalRefills == 0 <==> i == 0 || s[i].name == Replaced
  {
    TotalRefillsStep(s, i);
    FilterStep(s, i);
  }

  /**
   * The enriched columns row by row: the generation goes up by one on a
   * replacement row and stays otherwise; the position restarts at 0 when the
   * generation changes (and on the first row) and goes up by one otherwise.
   */
  predicate GenerationSteps(log: seq<Row>)
  {
    forall i :: 0 <= i < |log| ==> StepAt(log, i)
  }

  /** Row `i`'s generation and position, from row `i - 1`'s and its own label. */
  predicate StepAt(log: seq<Row>, i: int)
    requires 0 <= i < |log|
  {
    && log[i].filter == (if i == 0 then 0 else log[i - 1].filter) + (if log[i].event == Replaced then 1 else 0)
    && log[i].totalRefills
       == (if i == 0 || log[i - 1].filter != log[i].filter then 0 else log[i - 1].totalRefills + 1)
  }

  lemma EnrichStepAt(s: seq<Event>, i: int)
    requires 0 <= i < |s|
    ensures StepAt(Enrich(s), i)
  {
    FilterStep(s, i);
    TotalRefillsStep(s, i);
    assert Base(Enrich(s)[i]) == s[i];
  }

  lemma EnrichSteps(s: seq<Event>)
    ensures GenerationSteps(Enrich(s))
  {
    forall i | 0 <= i < |Enrich(s)| ensures StepAt(Enrich(s), i) {
      EnrichStepAt(s, i);
    }
  }

  /**
   * The step relation fixes the enrichment: any log with the events' rows, in
   * their order, that has `refills` one and follows `GenerationSteps` is
   * `Enrich` of them.
   */
  lemma {:induction false} EnrichIsTheOnlyStepLog(s: seq<Event>, log: seq<Row>)
    requires |log| == |s|
    requires forall i :: 0 <= i < |s| ==> Base(log[i]) == s[i] && log[i].refills == 1
    requires GenerationSteps(log)
    ensures log == Enrich(s)
  {
    var e := Enrich(s);
    EnrichSteps(s);
    forall i | 0 <= i < |s| ensures log[i] == e[i] {
      StepLogsAgree(log, e, i);
    }
  }

  lemma {:induction false} StepLogsAgree(a: seq<Row>, b: seq<Row>, i: int)
    requires |a| == |b| && 0 <= i < |a|
    requires forall j :: 0 <= j < |a| ==> Base(a[j]) == Base(b[j]) && a[j].refills == b[j].refills
    requires GenerationSteps(a) && GenerationSteps(b)
    ensures a[i] == b[i]
    decreases i
  {
    if i > 0 {
      StepLogsAgree(a, b, i - 1);
    }
    assert Base(a[i]) == Base(b[i]);
    assert StepAt(a, i) && StepAt(b, i);
    assert a[i].event == b[i].event;
    assert a[i].filter == b[i].filter;
    assert a[i].totalRefills == b[i].totalRefills;
  }

  /** Along a log that follows the step relation the generation never decreases. */
  lemma {:induction false} StepsMonotone(log: seq<Row>, i: int, j: int)
    requires GenerationSteps(log)
    requires 0 <= i <= j < |log|
    ensures log[i].filter <= log[j].filter
    decreases j - i
  {
    if i < j {
      StepsMonotone(log, i, j - 1);
      assert StepAt(log, j);
    }
  }

  lemma FilterColumnPrefix(s: seq<Event>, k: int)
    requires 0 <= k <= |s|
    ensures FilterColumn(s[..k]) == FilterColumn(s)[..k]
  {
    assert ReplacedMask(s[..k]) == ReplacedMask(s)[..k];
    CumSumPrefix(ReplacedMask(s), k);
  }

  lemma TotalRefillsColumnPrefix(s: seq<Event>, k: int)
    requires 0 <= k <= |s|
    ensures TotalRefillsColumn(s[..k]) == TotalRefillsColumn(s)[..k]
  {
    FilterColumnPrefix(s, k);
    CumCountPrefix(FilterColumn(s), k);
  }

  /** The enrichment of a row depends on the rows before it only. */
  lemma EnrichPrefix(s: seq<Event>, k: int)
    requires 0 <= k <= |s|
    ensures Enrich(s[..k]) == Enrich(s)[..k]
  {
    FilterColumnPrefix(s, k);
    TotalRefillsColumnPrefix(s, k);
    var log, log' := Enrich(s), Enrich(s[..k]);
    forall i | 0 <= i < k ensures log'[i] == log[i] { }
  }

  /** Stripping the derived columns gives back the events. */
  lemma BasesOfEnrich(s: seq<Event>)
    ensures Bases(Enrich(s)) == s
  {
  }

  /** The enriched log holds exactly the spreadsheet's rows, only reordered. */
  lemma LogKeepsRows(events: seq<Event>)
    ensures |Log(events)| == |events|
    ensures multiset(Bases(Log(events))) == multiset(events)
    ensures forall r :: r in Log(events) ==> r.refills == 1
  {
    BasesOfEnrich(SortIndex(events));
  }

  /** The log is in timestamp order and its generations are those of the sorted events. */
  lemma LogInTimeOrder(events: seq<Event>, i: int)
    requires 0 <= i < |events|
    ensures |Log(events)| == |events|
    ensures forall j :: 0 <= j < i ==> Log(events)[j].timestamp <= Log(events)[i].timestamp
    ensures Log(events)[i].filter == CountLabel(SortIndex(events)[..i + 1], Replaced)
  {
    FilterCountsReplacements(SortIndex(events), i);
  }

  /**
   * When distinct events never share a timestamp the log does not depend on
   * the order the spreadsheet delivers them in, nor on how ties are sorted.
   */
  lemma LogOrderIndependent(events: seq<Event>, other: seq<Event>)
    requires multiset(other) == multiset(events)
    requires TieFree(events)
    ensures Log(other) == Log(events)
  {
    var a, b := SortIndex(events), SortIndex(other);
    assert forall x :: x in a <==> x in events by {
      forall x ensures x in a <==> x in events {
        assert x in a <==> x in multiset(a);
      }
    }
    SortedPermutationUnique(a, b);
  }

  /** Events already in timestamp order are enriched in their own order. */
  lemma SortedLogUnchanged(events: seq<Event>)
    requires SortedByTime(events)
    ensures Log(events) == Enrich(events)
  {
    SortIndexOfSorted(events);
  }

  /** Each event strictly later than the one before it. */
  predicate StrictlyByTime(s: seq<Event>)
  {
    forall i :: 0 < i < |s| ==> s[i - 1].timestamp < s[i].timestamp
  }

  lemma {:induction false} StrictlyByTimeIncreasing(s: seq<Event>)
    requires StrictlyByTime(s)
    ensures forall i, j :: 0 <= i < j < |s| ==> s[i].timestamp < s[j].timestamp
  {
    if |s| > 1 {
      var p := s[..|s| - 1];
      assert StrictlyByTime(p);
      StrictlyByTimeIncreasing(p);
      forall i, j | 0 <= i < j < |s| ensures s[i].timestamp < s[j].timestamp {
        if j < |s| - 1 {
          assert p[i] == s[i] && p[j] == s[j];
        } else if i < j - 1 {
          assert p[i] == s[i] && p[j - 1] == s[j - 1];
        }
      }
    }
  }

  /** Strictly increasing timestamps are sorted and free of ties. */
  lemma StrictlyByTimeSortedTieFree(s: seq<Event>)
    requires StrictlyByTime(s)
    ensures SortedByTime(s) && TieFree(s)
  {
    StrictlyByTimeIncreasing(s);
    forall x, y | x in s && y in s && x.timestamp == y.timestamp ensures x == y {
      var i :| 0 <= i < |s| && s[i] == x;
      var j :| 0 <= j < |s| && s[j] == y;
      assert !(i < j) && !(j < i);
    }
  }

  /**
   * For events already in strictly increasing time, the log is the one row
   * sequence over them, in their order, with `refills` one that follows
   * `GenerationSteps`.
   */
  lemma LogOfOrderedEvents(events: seq<Event>, log: seq<Row>)
    requires StrictlyByTime(events)
    requires |log| == |events|
    requires forall i :: 0 <= i < |events| ==> Base(log[i]) == events[i] && log[i].refills == 1
    requires GenerationSteps(log)
    ensures Log(events) == log
  {
    StrictlyByTimeSortedTieFree(events);
    SortedLogUnchanged(events);
    EnrichIsTheOnlyStepLog(events, log);
  }
}

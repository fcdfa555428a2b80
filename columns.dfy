/**
 * Whole-column operations of the dataframe library, as used by the event-log
 * transform: running sums, per-group ordinals, grouped sums, means, maxima and
 * positional slicing. Each is a plain function over sequences.
 */
module Columns {
  import opened Wrappers

  function Last<T>(s: seq<T>): T
    requires |s| > 0
  {
    s[|s| - 1]
  }

  function Init<T>(s: seq<T>): seq<T>
    requires |s| > 0
  {
    s[..|s| - 1]
  }

  /** Sum of a column (`Series.sum`). */
  function Sum(xs: seq<int>): int
  {
    if |xs| == 0 then 0 else Sum(Init(xs)) + Last(xs)
  }

  /** Number of entries of `s` equal to `k`. */
  function Occurrences<K(==)>(s: seq<K>, k: K): nat
  {
    if |s| == 0 then 0 else Occurrences(Init(s), k) + (if Last(s) == k then 1 else 0)
  }

  lemma {:induction false} OccurrencesCons<K>(x: K, s: seq<K>, k: K)
    ensures Occurrences([x] + s, k) == (if x == k then 1 else 0) + Occurrences(s, k)
    decreases |s|
  {
    if |s| == 0 {
      assert Init([x] + s) == [];
    } else {
      assert Init([x] + s) == [x] + Init(s);
      OccurrencesCons(x, Init(s), k);
    }
  }

  lemma OccurrencesSnoc<K>(s: seq<K>, x: K, k: K)
    ensures Occurrences(s + [x], k) == Occurrences(s, k) + (if x == k then 1 else 0)
  {
    assert Init(s + [x]) == s;
  }

  /** A key that never occurs has no occurrences. */
  lemma {:induction false} OccurrencesAbsent<K>(s: seq<K>, k: K)
    requires forall i :: 0 <= i < |s| ==> s[i] != k
    ensures Occurrences(s, k) == 0
    decreases |s|
  {
    if |s| > 0 {
      OccurrencesAbsent(Init(s), k);
    }
  }

  /**
   * Running total inclusive of the current row (`Series.cumsum`): entry i is
   * the sum of the first i + 1 entries.
   */
  function CumSum(xs: seq<nat>): (r: seq<nat>)
    ensures |r| == |xs|
    ensures forall i :: 0 <= i < |xs| ==> r[i] == Sum(xs[..i + 1])
    decreases |xs|
  {
    if |xs| == 0 then []
    else
      var p := CumSum(Init(xs));
      assert forall i :: 0 <= i < |p| ==> p[i] == Sum(xs[..i + 1]) by {
        forall i | 0 <= i < |p| ensures p[i] == Sum(xs[..i + 1]) {
          assert Init(xs)[..i + 1] == xs[..i + 1];
        }
      }
      assert xs[..|xs|] == xs;
      p + [(if |p| == 0 then 0 else Last(p)) + Last(xs)]
  }

  function Get<K>(m: map<K, nat>, k: K): nat
  {
    if k in m then m[k] else 0
  }

  /** `Occurrences` of a non-empty prefix, split at its first entry. */
  lemma PrefixOccurrences<K>(keys: seq<K>)
    requires |keys| > 0
    ensures forall i, k :: 1 <= i <= |keys| ==>
      Occurrences(keys[..i], k) == (if keys[0] == k then 1 else 0) + Occurrences(keys[1..][..i - 1], k)
  {
    forall i, k | 1 <= i <= |keys|
      ensures Occurrences(keys[..i], k) == (if keys[0] == k then 1 else 0) + Occurrences(keys[1..][..i - 1], k)
    {
      assert keys[..i] == [keys[0]] + keys[1..][..i - 1];
      OccurrencesCons(keys[0], keys[1..][..i - 1], k);
    }
  }

  /**
   * One pass over the keys with a per-key counter, as a grouped `cumcount`
   * does: each entry gets the counter of its key, which then goes up by one.
   * `seen` holds the counters already reached before `keys`.
   */
  function CumCountFrom<K(==)>(seen: map<K, nat>, keys: seq<K>): (r: seq<nat>)
    ensures |r| == |keys|
    ensures forall i :: 0 <= i < |keys| ==> r[i] == Get(seen, keys[i]) + Occurrences(keys[..i], keys[i])
    decreases |keys|
  {
    if |keys| == 0 then []
    else
      var c := Get(seen, keys[0]);
      PrefixOccurrences(keys);
      assert keys[..0] == [];
      [c] + CumCountFrom(seen[keys[0] := c + 1], keys[1..])
  }

  /**
   * `groupby(keys).cumcount()`: the zero-based position of each entry among
   * the entries with the same key, in column order.
   */
  function CumCount<K(==)>(keys: seq<K>): (r: seq<nat>)
    ensures |r| == |keys|
    ensures forall i :: 0 <= i < |keys| ==> r[i] == Occurrences(keys[..i], keys[i])
  {
    CumCountFrom(map[], keys)
  }

  /** The running sum of a prefix is the prefix of the running sum. */
  lemma CumSumPrefix(xs: seq<nat>, k: int)
    requires 0 <= k <= |xs|
    ensures CumSum(xs[..k]) == CumSum(xs)[..k]
  {
    forall i | 0 <= i < k ensures CumSum(xs[..k])[i] == CumSum(xs)[i] {
      CumSumPrefixAt(xs, k, i);
    }
  }

  lemma CumSumPrefixAt(xs: seq<nat>, k: int, i: int)
    requires 0 <= i < k <= |xs|
    ensures CumSum(xs[..k])[i] == CumSum(xs)[i]
  {
    var p := xs[..k];
    assert p[..i + 1] == xs[..i + 1];
  }

  /** The running count of a prefix is the prefix of the running count. */
  lemma CumCountPrefix<K>(keys: seq<K>, k: int)
    requires 0 <= k <= |keys|
    ensures CumCount(keys[..k]) == CumCount(keys)[..k]
  {
    var r, r' := CumCount(keys), CumCount(keys[..k]);
    forall i | 0 <= i < k ensures r'[i] == r[i] {
      assert keys[..k][..i] == keys[..i];
      assert keys[..k][i] == keys[i];
    }
  }

  predicate StrictlyAscending(s: seq<int>)
  {
    forall i, j :: 0 <= i < j < |s| ==> s[i] < s[j]
  }

  function InsertKey(k: int, s: seq<int>): (r: seq<int>)
    requires StrictlyAscending(s)
    ensures StrictlyAscending(r)
    ensures forall x :: x in r <==> x == k || x in s
    decreases |s|
  {
    if |s| == 0 then [k]
    else if k < s[0] then [k] + s
    else if k == s[0] then s
    else
      var t := InsertKey(k, s[1..]);
      assert forall x :: x in s[1..] ==> s[0] < x;
      assert forall j :: 0 <= j < |t| ==> s[0] < t[j] by {
        forall j | 0 <= j < |t| ensures s[0] < t[j] {
          assert t[j] in t;
        }
      }
      [s[0]] + t
  }

  /** The distinct keys of a column in ascending order, as `groupby` orders its groups. */
  function SortedKeys(keys: seq<int>): (r: seq<int>)
    ensures StrictlyAscending(r)
    ensures forall x :: x in r <==> x in keys
    decreases |keys|
  {
    if |keys| == 0 then []
    else
      var r := InsertKey(Last(keys), SortedKeys(Init(keys)));
      assert forall x :: x in keys <==> x in Init(keys) || x == Last(keys) by {
        assert keys == Init(keys) + [Last(keys)];
      }
      r
  }

  /** Sum of `vals` over the rows whose key is `k`. */
  function SumWhere(keys: seq<int>, vals: seq<int>, k: int): int
    requires |keys| == |vals|
  {
    if |keys| == 0 then 0
    else SumWhere(Init(keys), Init(vals), k) + (if Last(keys) == k then Last(vals) else 0)
  }

  /** One group of a grouped sum: its key and the sum of its rows. */
  datatype Group = Group(key: int, total: int)

  /**
   * `Series.groupby(keys).sum()`: one group per distinct key, in ascending key
   * order, each holding the sum of the values of its rows.
   */
  function GroupSum(keys: seq<int>, vals: seq<int>): (g: seq<Group>)
    requires |keys| == |vals|
    ensures forall i, j :: 0 <= i < j < |g| ==> g[i].key < g[j].key
    ensures forall k :: k in keys <==> exists i :: 0 <= i < |g| && g[i].key == k
    ensures forall i :: 0 <= i < |g| ==> g[i].total == SumWhere(keys, vals, g[i].key)
  {
    var ks := SortedKeys(keys);
    var g := seq(|ks|, i requires 0 <= i < |ks| => Group(ks[i], SumWhere(keys, vals, ks[i])));
    assert forall k :: k in ks ==> exists i :: 0 <= i < |g| && g[i].key == k by {
      forall k | k in ks ensures exists i :: 0 <= i < |g| && g[i].key == k {
        var i :| 0 <= i < |ks| && ks[i] == k;
        assert g[i].key == k;
      }
    }
    g
  }

  function Totals(g: seq<Group>): seq<int>
  {
    seq(|g|, i requires 0 <= i < |g| => g[i].total)
  }

  /** Python's `s[:-1]`: everything but the last entry, and nothing of an empty sequence. */
  function DropLast<T>(s: seq<T>): (r: seq<T>)
    ensures |s| > 0 ==> r + [s[|s| - 1]] == s
  {
    if |s| == 0 then [] else Init(s)
  }

  /** `Series.mean()`: NaN (here `None`) for an empty series, otherwise the exact ratio. */
  function Mean(xs: seq<int>): (m: Option<real>)
    ensures m.None? <==> |xs| == 0
    ensures m.Some? ==> m.value * |xs| as real == Sum(xs) as real
  {
    if |xs| == 0 then None else Some(Sum(xs) as real / |xs| as real)
  }

  /** Python's `max` over a column: raises (here `None`) on an empty one. */
  function MaxOf(xs: seq<int>): (m: Option<int>)
    ensures m.None? <==> |xs| == 0
    ensures m.Some? ==> m.value in xs && forall x :: x in xs ==> x <= m.value
    decreases |xs|
  {
    if |xs| == 0 then None
    else
      var rest := MaxOf(Init(xs));
      assert xs == Init(xs) + [Last(xs)];
      if rest.Some? && Last(xs) <= rest.value then rest else Some(Last(xs))
  }

  /** A key that occurs has at least one occurrence. */
  lemma {:induction false} OccurrencesPositive<K>(s: seq<K>, k: K)
    requires k in s
    ensures Occurrences(s, k) >= 1
    decreases |s|
  {
    if Last(s) != k {
      assert s == Init(s) + [Last(s)];
      OccurrencesPositive(Init(s), k);
    }
  }

  /** Summing a column of ones over a key counts the key's rows. */
  lemma {:induction false} SumWhereOfOnes(keys: seq<int>, vals: seq<int>, k: int)
    requires |keys| == |vals|
    requires forall i :: 0 <= i < |vals| ==> vals[i] == 1
    ensures SumWhere(keys, vals, k) == Occurrences(keys, k)
    decreases |keys|
  {
    if |keys| > 0 {
      SumWhereOfOnes(Init(keys), Init(vals), k);
    }
  }

  /** Grouping a column of ones gives every group a total of at least one. */
  lemma GroupSumOfOnesPositive(keys: seq<int>, vals: seq<int>)
    requires |keys| == |vals|
    requires forall i :: 0 <= i < |vals| ==> vals[i] == 1
    ensures forall i :: 0 <= i < |GroupSum(keys, vals)| ==> GroupSum(keys, vals)[i].total >= 1
  {
    var g := GroupSum(keys, vals);
    forall i | 0 <= i < |g| ensures g[i].total >= 1 {
      SumWhereOfOnes(keys, vals, g[i].key);
      OccurrencesPositive(keys, g[i].key);
    }
  }

  /** A grouping has at least two groups exactly when the column holds two different keys. */
  lemma GroupSumTwoGroups(keys: seq<int>, vals: seq<int>)
    requires |keys| == |vals|
    ensures |GroupSum(keys, vals)| >= 2
        <==> exists i, j :: 0 <= i < |keys| && 0 <= j < |keys| && keys[i] != keys[j]
  {
    var g := GroupSum(keys, vals);
    if |g| >= 2 {
      assert g[0].key in keys && g[1].key in keys;
      var i :| 0 <= i < |keys| && keys[i] == g[0].key;
      var j :| 0 <= j < |keys| && keys[j] == g[1].key;
      assert keys[i] != keys[j];
    }
    if exists i, j :: 0 <= i < |keys| && 0 <= j < |keys| && keys[i] != keys[j] {
      var i, j :| 0 <= i < |keys| && 0 <= j < |keys| && keys[i] != keys[j];
      assert keys[i] in keys && keys[j] in keys;
      var a :| 0 <= a < |g| && g[a].key == keys[i];
      var b :| 0 <= b < |g| && g[b].key == keys[j];
      assert a != b;
    }
  }

  /** The last group holds the largest key of the column. */
  lemma GroupSumLastKey(keys: seq<int>, vals: seq<int>)
    requires |keys| == |vals| && |keys| > 0
    ensures |GroupSum(keys, vals)| > 0
    ensures Last(GroupSum(keys, vals)).key in keys
    ensures forall i :: 0 <= i < |keys| ==> keys[i] <= Last(GroupSum(keys, vals)).key
  {
    var g := GroupSum(keys, vals);
    assert keys[0] in keys;
    forall i | 0 <= i < |keys| ensures keys[i] <= Last(g).key {
      assert keys[i] in keys;
      var a :| 0 <= a < |g| && g[a].key == keys[i];
    }
  }

  /** A sum of entries that are each at least one is at least the number of entries. */
  lemma {:induction false} SumAtLeastLength(xs: seq<int>)
    requires forall i :: 0 <= i < |xs| ==> xs[i] >= 1
    ensures Sum(xs) >= |xs|
    decreases |xs|
  {
    if |xs| > 0 {
      SumAtLeastLength(Init(xs));
    }
  }

  /** The mean of entries that are each at least one is at least one. */
  lemma MeanAtLeastOne(xs: seq<int>)
    requires |xs| > 0
    requires forall i :: 0 <= i < |xs| ==> xs[i] >= 1
    ensures Mean(xs).Some? && Mean(xs).value >= 1.0
  {
    SumAtLeastLength(xs);
    var m, n := Mean(xs).value, |xs| as real;
    assert m * n == Sum(xs) as real && Sum(xs) as real >= n && n > 0.0;
    assert (m - 1.0) * n == m * n - n;
    NonNegativeFactor(m - 1.0, n);
  }

  lemma NonNegativeFactor(x: real, y: real)
    requires y > 0.0 && x * y >= 0.0
    ensures x >= 0.0
  {
  }
}

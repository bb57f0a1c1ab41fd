/**
  Durations and the label table.

  A duration is a whole number of nanoseconds.  The stopwatch keeps a table
  from label to accumulated duration; this module gives the sum of that table
  (`data.values().sum()` in the source, an order-independent sum over a hash
  map) and the conversion to whole milliseconds (`Duration::as_millis`).
 */
module Durations {

  /** Nanoseconds in one millisecond. */
  const NanosPerMilli: nat := 1_000_000

  /** Whole milliseconds in `nanos` nanoseconds, rounded down, as `Duration::as_millis` reports them. */
  function AsMillis(nanos: nat): (ms: nat)
    ensures ms * NanosPerMilli <= nanos < (ms + 1) * NanosPerMilli
  {
    nanos / NanosPerMilli
  }

  /** The duration stored for `k`, or zero when `k` has none yet (`entry(k).or_insert(0)`). */
  function Lookup(m: map<string, nat>, k: string): (d: nat)
    ensures k in m ==> d == m[k]
    ensures k !in m ==> d == 0
  {
    if k in m then m[k] else 0
  }

  /** The sum of all durations in the table, whatever the order of summation. */
  ghost function Sum(m: map<string, nat>): nat
    decreases |m|
  {
    if m == map[] then 0
    else
      var k :| k in m;
      m[k] + Sum(m - {k})
  }

  /** Any entry may be taken out first: the sum does not depend on the order. */
  lemma {:induction false} SumRemove(m: map<string, nat>, k: string)
    requires k in m
    ensures Sum(m) == m[k] + Sum(m - {k})
    decreases |m|
  {
    var j :| j in m && Sum(m) == m[j] + Sum(m - {j});
    if j != k {
      SumRemove(m - {j}, k);
      SumRemove(m - {k}, j);
      assert m - {j} - {k} == m - {k} - {j};
    }
  }

  /** Replacing the duration of `k` by `v` changes the sum by the difference. */
  lemma SumUpdate(m: map<string, nat>, k: string, v: nat)
    ensures Sum(m[k := v]) + Lookup(m, k) == Sum(m) + v
  {
    SumRemove(m[k := v], k);
    assert m[k := v] - {k} == m - {k};
    if k in m {
      SumRemove(m, k);
    } else {
      assert m - {k} == m;
    }
  }

  /** Charging `e` more nanoseconds to `k` (a new label starts at zero) raises the sum by exactly `e`. */
  lemma SumCharge(m: map<string, nat>, k: string, e: nat)
    ensures Sum(m[k := Lookup(m, k) + e]) == Sum(m) + e
  {
    SumUpdate(m, k, Lookup(m, k) + e);
  }

  /** No single duration exceeds the sum. */
  lemma SumAtLeast(m: map<string, nat>, k: string)
    requires k in m
    ensures m[k] <= Sum(m)
  {
    SumRemove(m, k);
  }

  /** A label's whole milliseconds never exceed the total's whole milliseconds. */
  lemma MillisAtMostTotal(m: map<string, nat>, k: string)
    requires k in m
    ensures AsMillis(m[k]) <= AsMillis(Sum(m))
  {
    SumAtLeast(m, k);
  }

  /** The set of elements of a list of labels. */
  function Elems(keys: seq<string>): (s: set<string>)
    ensures forall k :: k in s <==> k in keys
  {
    set k | k in keys
  }

  /** No label is listed twice. */
  predicate Distinct(keys: seq<string>)
  {
    forall i, j :: 0 <= i < j < |keys| ==> keys[i] != keys[j]
  }

  /**
    Listing a label only when the table has no entry for it keeps the list
    duplicate-free and equal, as a set, to the table's labels.
   */
  lemma ListFirstSeen(keys: seq<string>, m: map<string, nat>, msg: string, v: nat)
    requires Distinct(keys) && Elems(keys) == m.Keys
    ensures var keys' := if msg in m then keys else keys + [msg];
            Distinct(keys') && Elems(keys') == m[msg := v].Keys
  {
    if msg !in m {
      assert Elems(keys + [msg]) == Elems(keys) + {msg};
    }
  }

  /** Listing a label when the table has no entry for it keeps every label of the table listed. */
  lemma ListCovers(keys: seq<string>, m: map<string, nat>, msg: string, v: nat)
    requires m.Keys <= Elems(keys)
    ensures var keys' := if msg in m then keys else keys + [msg];
            m[msg := v].Keys <= Elems(keys')
  {
    if msg !in m {
      assert Elems(keys + [msg]) == Elems(keys) + {msg};
    }
  }

  /** The sum of the durations of the listed labels, each counted as often as it is listed. */
  function ListedNanos(keys: seq<string>, m: map<string, nat>): nat
  {
    if keys == [] then 0 else Lookup(m, keys[0]) + ListedNanos(keys[1..], m)
  }

  /** The sum of the per-label whole milliseconds of the listed labels. */
  function ListedMillis(keys: seq<string>, m: map<string, nat>): nat
  {
    if keys == [] then 0 else AsMillis(Lookup(m, keys[0])) + ListedMillis(keys[1..], m)
  }

  /** Dropping an entry whose label is not listed does not change the listed sum. */
  lemma {:induction false} ListedNanosFrame(keys: seq<string>, m: map<string, nat>, k: string)
    requires k !in keys
    ensures ListedNanos(keys, m - {k}) == ListedNanos(keys, m)
  {
    if keys != [] {
      ListedNanosFrame(keys[1..], m, k);
    }
  }

  /** When every label of the table is listed exactly once, the listed sum is the table's sum. */
  lemma {:induction false} ListedNanosIsSum(keys: seq<string>, m: map<string, nat>)
    requires Distinct(keys) && Elems(keys) == m.Keys
    ensures ListedNanos(keys, m) == Sum(m)
  {
    if keys == [] {
      assert m == map[];
    } else {
      var k := keys[0];
      assert k !in keys[1..] by {
        forall i | 0 <= i < |keys[1..]| ensures keys[1..][i] != k {
          assert keys[1..][i] == keys[i + 1];
        }
      }
      SumRemove(m, k);
      ListedNanosFrame(keys[1..], m, k);
      assert Elems(keys[1..]) == (m - {k}).Keys by {
        assert keys == [k] + keys[1..];
      }
      ListedNanosIsSum(keys[1..], m - {k});
    }
  }

  /**
    Rounding each label down to whole milliseconds loses less than one
    millisecond per listed label.
   */
  lemma {:induction false} ListedMillisBounds(keys: seq<string>, m: map<string, nat>)
    ensures ListedMillis(keys, m) * NanosPerMilli <= ListedNanos(keys, m)
    ensures ListedNanos(keys, m) + |keys| <= (ListedMillis(keys, m) + |keys|) * NanosPerMilli
  {
    if keys != [] {
      ListedMillisBounds(keys[1..], m);
    }
  }

  /**
    The total in whole milliseconds is the rounded-down sum of nanoseconds, not
    the sum of the rounded-down labels: with every label listed once it is at
    least that sum and less than that sum plus the number of labels.
   */
  lemma TotalMillisBounds(keys: seq<string>, m: map<string, nat>)
    requires Distinct(keys) && Elems(keys) == m.Keys
    ensures ListedMillis(keys, m) <= AsMillis(Sum(m))
    ensures keys != [] ==> AsMillis(Sum(m)) < ListedMillis(keys, m) + |keys|
  {
    ListedNanosIsSum(keys, m);
    ListedMillisBounds(keys, m);
  }

  /** Two labels of 0.6 ms each: each rounds to 0 ms, their total to 1 ms. */
  lemma TotalIsNotSumOfLabelMillis()
    ensures var m := map["a" := 600_000, "b" := 600_000];
            AsMillis(Sum(m)) == 1 && ListedMillis(["a", "b"], m) == 0
  {
    var m := map["a" := 600_000, "b" := 600_000];
    ListedNanosIsSum(["a", "b"], m);
  }
}

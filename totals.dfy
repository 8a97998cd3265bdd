/**
 * Sums of the values of a table keyed by analytic code (pandas' column
 * `.sum()`): a table is a map, so its sum does not depend on any row order.
 */
module ColumnSums {

  /** The sum of all values of `m`. */
  ghost function SumValues(m: map<string, int>): int
    decreases |m|
  {
    if m == map[] then 0
    else
      var k :| k in m;
      assert |m - {k}| == |m| - 1 by {
        assert (m - {k}).Keys == m.Keys - {k};
      }
      m[k] + SumValues(m - {k})
  }

  /** The value of `k` in `m`, or 0 when `m` has no entry for it (an outer-join gap filled with 0). */
  function Lookup(m: map<string, int>, k: string): int {
    if k in m then m[k] else 0
  }

  /** Any entry can be taken out first: the sum does not depend on the order of the keys. */
  lemma {:induction false} SumValuesRemove(m: map<string, int>, k: string)
    requires k in m
    ensures SumValues(m) == m[k] + SumValues(m - {k})
    decreases |m|
  {
    var j :| j in m && SumValues(m) == m[j] + SumValues(m - {j});
    if j != k {
      assert (m - {j}).Keys == m.Keys - {j};
      assert (m - {k}).Keys == m.Keys - {k};
      SumValuesRemove(m - {j}, k);
      SumValuesRemove(m - {k}, j);
      assert m - {j} - {k} == m - {k} - {j};
    }
  }

  /** Setting the value of `k` to `v` changes the sum by the difference. */
  lemma SumValuesUpdate(m: map<string, int>, k: string, v: int)
    ensures SumValues(m[k := v]) == SumValues(m) - Lookup(m, k) + v
  {
    var m' := m[k := v];
    SumValuesRemove(m', k);
    if k in m {
      SumValuesRemove(m, k);
      assert m' - {k} == m - {k};
    } else {
      assert m' - {k} == m;
    }
  }

  /** `t` over the key set `keys`, with 0 for every key `t` lacks. */
  function Padded(t: map<string, int>, keys: set<string>): map<string, int> {
    map k | k in keys :: Lookup(t, k)
  }

  /** Padding a table with zeros for extra keys does not change its sum. */
  lemma {:induction false} SumValuesPadded(t: map<string, int>, keys: set<string>)
    requires t.Keys <= keys
    ensures SumValues(Padded(t, keys)) == SumValues(t)
    decreases keys
  {
    var padded := Padded(t, keys);
    if keys != {} {
      var k :| k in keys;
      var rest := keys - {k};
      var t' := t - {k};
      SumValuesPadded(t', rest);
      SumValuesRemove(padded, k);
      assert padded - {k} == Padded(t', rest);
      if k in t {
        SumValuesRemove(t, k);
      } else {
        assert t' == t;
      }
    } else {
      assert t == map[];
      assert padded == map[];
    }
  }
}

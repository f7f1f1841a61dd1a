/** Weighted totals over the rows of a table and over a list. */
module Sums {

  /** The sum of weight(k, m[k]) over every row of the table. */
  ghost function Total<K(!new), V(!new)>(m: map<K, V>, weight: (K, V) -> int): int
    decreases |m|
  {
    if m == map[] then 0
    else
      var k :| k in m;
      weight(k, m[k]) + Total(m - {k}, weight)
  }

  /** Any row may be taken out first. */
  lemma {:induction false} TotalRemove<K(!new), V(!new)>(m: map<K, V>, weight: (K, V) -> int, k: K)
    requires k in m
    ensures Total(m, weight) == weight(k, m[k]) + Total(m - {k}, weight)
    decreases |m|
  {
    var j :| j in m && Total(m, weight) == weight(j, m[j]) + Total(m - {j}, weight);
    if j != k {
      TotalRemove(m - {j}, weight, k);
      TotalRemove(m - {k}, weight, j);
      assert m - {j} - {k} == m - {k} - {j};
    }
  }

  /** Writing one row changes the total by that row's weight only. */
  lemma TotalUpdate<K(!new), V(!new)>(m: map<K, V>, weight: (K, V) -> int, k: K, v: V)
    ensures Total(m[k := v], weight) ==
            Total(m, weight) - (if k in m then weight(k, m[k]) else 0) + weight(k, v)
  {
    TotalRemove(m[k := v], weight, k);
    assert m[k := v] - {k} == m - {k};
    if k in m {
      TotalRemove(m, weight, k);
    } else {
      assert m - {k} == m;
    }
  }

  lemma {:induction false} TotalNonNegative<K(!new), V(!new)>(m: map<K, V>, weight: (K, V) -> int)
    requires forall k :: k in m ==> weight(k, m[k]) >= 0
    ensures Total(m, weight) >= 0
    decreases |m|
  {
    if m != map[] {
      var j :| j in m && Total(m, weight) == weight(j, m[j]) + Total(m - {j}, weight);
      TotalNonNegative(m - {j}, weight);
    }
  }

  lemma TotalAtLeast<K(!new), V(!new)>(m: map<K, V>, weight: (K, V) -> int, k: K)
    requires k in m
    requires forall j :: j in m ==> weight(j, m[j]) >= 0
    ensures Total(m, weight) >= weight(k, m[k])
  {
    TotalRemove(m, weight, k);
    TotalNonNegative(m - {k}, weight);
  }

  /** The sum of weight(x) over a list. */
  function SeqTotal<T>(s: seq<T>, weight: T -> int): int {
    if s == [] then 0 else SeqTotal(s[..|s| - 1], weight) + weight(s[|s| - 1])
  }

  lemma SeqTotalPush<T>(s: seq<T>, weight: T -> int, x: T)
    ensures SeqTotal(s + [x], weight) == SeqTotal(s, weight) + weight(x)
  {
    assert (s + [x])[..|s|] == s;
  }

  lemma {:induction false} SeqTotalConcat<T>(s: seq<T>, t: seq<T>, weight: T -> int)
    ensures SeqTotal(s + t, weight) == SeqTotal(s, weight) + SeqTotal(t, weight)
  {
    if t == [] {
      assert s + t == s;
    } else {
      assert (s + t)[..|s + t| - 1] == s + t[..|t| - 1];
      SeqTotalConcat(s, t[..|t| - 1], weight);
    }
  }

  lemma {:induction false} SeqTotalUpdate<T>(s: seq<T>, weight: T -> int, i: nat, x: T)
    requires i < |s|
    ensures SeqTotal(s[i := x], weight) == SeqTotal(s, weight) - weight(s[i]) + weight(x)
  {
    var n := |s| - 1;
    if i == n {
      assert s[i := x][..n] == s[..n];
    } else {
      assert s[i := x][..n] == s[..n][i := x];
      SeqTotalUpdate(s[..n], weight, i, x);
    }
  }

  lemma {:induction false} SeqTotalAtLeast<T>(s: seq<T>, weight: T -> int, i: int)
    requires forall x :: x in s ==> weight(x) >= 0
    ensures SeqTotal(s, weight) >= 0
    ensures 0 <= i < |s| ==> SeqTotal(s, weight) >= weight(s[i])
  {
    if s != [] {
      var n := |s| - 1;
      SeqTotalAtLeast(s[..n], weight, i);
    }
  }
}

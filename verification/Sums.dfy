/** Sums of the values of a finite map. */
module Sums {

  ghost function Sum(m: map<nat, nat>): nat
    decreases |m|
  {
    if m == map[] then 0
    else
      var k :| k in m;
      m[k] + Sum(m - {k})
  }

  /** The order in which a sum is taken does not matter. */
  lemma {:induction false} SumWithout(m: map<nat, nat>, k: nat)
    requires k in m
    ensures Sum(m) == m[k] + Sum(m - {k})
    decreases |m|
  {
    var j :| j in m && Sum(m) == m[j] + Sum(m - {j});
    if j != k {
      SumWithout(m - {j}, k);
      SumWithout(m - {k}, j);
      assert m - {j} - {k} == m - {k} - {j};
    }
  }

  lemma SumWith(m: map<nat, nat>, k: nat, v: nat)
    requires k !in m
    ensures Sum(m[k := v]) == v + Sum(m)
  {
    SumWithout(m[k := v], k);
    assert m[k := v] - {k} == m;
  }

  lemma TakeOut(m: map<nat, nat>, n: map<nat, nat>, k: nat)
    requires m.Keys !! n.Keys && k in m
    ensures var less := m - {k};
            less.Keys !! n.Keys && k !in less + n && |less| < |m| && less[k := m[k]] == m
  {
  }

  lemma PutBack(m: map<nat, nat>, n: map<nat, nat>, k: nat)
    requires k in m && k !in n
    ensures ((m - {k}) + n)[k := m[k]] == m + n
  {
    var put := ((m - {k}) + n)[k := m[k]];
    assert put.Keys == (m + n).Keys;
    assert forall x :: x in m + n ==> put[x] == (m + n)[x];
  }

  /** Two maps without a common key add up. */
  lemma {:induction false} SumDisjoint(m: map<nat, nat>, n: map<nat, nat>)
    requires m.Keys !! n.Keys
    ensures Sum(m + n) == Sum(m) + Sum(n)
    decreases |m|
  {
    if m == map[] {
      assert m + n == n;
    } else {
      var k :| k in m;
      var less := m - {k};
      TakeOut(m, n, k);
      PutBack(m, n, k);
      SumDisjoint(less, n);
      SumWith(less, k, m[k]);
      SumWith(less + n, k, m[k]);
    }
  }
}

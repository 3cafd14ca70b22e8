/** Sums over finite maps, independent of the order in which their entries are visited. */
module Sums {
  import opened Types

  ghost function Sum(m: map<Outpoint, nat>): nat {
    if m == map[] then 0 else
      var k :| k in m;
      m[k] + Sum(m - {k})
  }

  lemma {:induction false} SumRemove(m: map<Outpoint, nat>, k: Outpoint)
    requires k in m
    ensures Sum(m) == m[k] + Sum(m - {k})
  {
    var j :| j in m && Sum(m) == m[j] + Sum(m - {j});
    if j != k {
      SumRemove(m - {j}, k);
      SumRemove(m - {k}, j);
      assert m - {j} - {k} == m - {k} - {j};
    }
  }

  lemma SumAdd(m: map<Outpoint, nat>, k: Outpoint, v: nat)
    requires k !in m
    ensures Sum(m[k := v]) == Sum(m) + v
  {
    SumRemove(m[k := v], k);
    assert m[k := v] - {k} == m;
  }

  lemma {:induction false} SumUnion(a: map<Outpoint, nat>, b: map<Outpoint, nat>)
    requires a.Keys !! b.Keys
    ensures Sum(a + b) == Sum(a) + Sum(b)
  {
    if b == map[] {
      assert a + b == a;
    } else {
      var k :| k in b;
      SumRemove(b, k);
      SumUnion(a, b - {k});
      SumAdd(a + (b - {k}), k, b[k]);
      assert (a + (b - {k}))[k := b[k]] == a + b;
    }
  }

  // ---- sums over lists ----

  function Total(s: seq<int>): int {
    if |s| == 0 then 0 else s[0] + Total(s[1..])
  }

  lemma NoTotal()
    ensures Total([]) == 0
  {
  }

  lemma {:induction false} TotalSnoc(s: seq<int>, x: int)
    ensures Total(s + [x]) == Total(s) + x
  {
    if |s| == 0 {
      assert s + [x] == [x] && [x][1..] == [];
    } else {
      assert (s + [x])[1..] == s[1..] + [x];
      TotalSnoc(s[1..], x);
    }
  }
}

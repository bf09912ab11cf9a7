/** Sums over the values of a finite map: the meaning of SQL's SUM over a grouped result. */
module Totals {

  ghost function Total<K>(m: map<K, int>): int
  {
    if m.Keys == {} then 0 else
      var k :| k in m.Keys;
      m[k] + Total(m - {k})
  }

  /** The sum does not depend on the order in which keys are taken out. */
  lemma {:induction false} TotalRemove<K>(m: map<K, int>, k: K)
    requires k in m
    ensures Total(m) == m[k] + Total(m - {k})
    decreases |m|
  {
    var x := FirstKey(m, k);
    hide Total;
    if x != k {
      Shrinks(m, x);
      Shrinks(m, k);
      TotalRemove(m - {x}, k);
      TotalRemove(m - {k}, x);
      assert m - {x} - {k} == m - {k} - {x};
    }
  }

  /** The key a sum takes out first. */
  lemma FirstKey<K>(m: map<K, int>, k: K) returns (x: K)
    requires k in m
    ensures x in m && Total(m) == m[x] + Total(m - {x})
  {
    x :| x in m.Keys && Total(m) == m[x] + Total(m - {x});
  }

  lemma Shrinks<K>(m: map<K, int>, k: K)
    requires k in m
    ensures |m - {k}| < |m|
  {
    assert (m - {k}).Keys == m.Keys - {k};
    assert |m.Keys - {k}| == |m.Keys| - 1;
    assert |m| == |m.Keys| && |m - {k}| == |(m - {k}).Keys|;
  }

  /** Writing one key changes the sum by the difference at that key; an absent key counts as zero. */
  lemma TotalUpdate<K>(m: map<K, int>, k: K, v: int)
    ensures Total(m[k := v]) == Total(m) - (if k in m then m[k] else 0) + v
  {
    var m' := m[k := v];
    TotalRemove(m', k);
    if k in m {
      TotalRemove(m, k);
      assert m' - {k} == m - {k};
    } else {
      assert m' - {k} == m;
    }
  }

  lemma {:induction false} TotalZero<K>(m: map<K, int>)
    requires forall k :: k in m ==> m[k] == 0
    ensures Total(m) == 0
    decreases |m|
  {
    if m.Keys != {} {
      var k :| k in m.Keys;
      TotalRemove(m, k);
      Shrinks(m, k);
      TotalZero(m - {k});
    }
  }

  /** The least element of a nonempty set of natural numbers. */
  function Least(s: set<nat>): (m: nat)
    requires s != {}
    ensures m in s && forall y :: y in s ==> m <= y
  {
    LeastExists(s);
    assert forall m :: IsLeast(s, m) ==> m in s && forall y :: y in s ==> m <= y;
    var m :| m in s && forall y :: y in s ==> m <= y;
    m
  }

  ghost predicate IsLeast(s: set<nat>, m: nat) {
    m in s && forall y :: y in s ==> m <= y
  }

  lemma {:induction false} LeastExists(s: set<nat>)
    requires s != {}
    ensures exists m :: IsLeast(s, m)
    decreases s
  {
    var x :| x in s;
    var rest := s - {x};
    if rest == {} {
      assert forall y :: y in s ==> y == x || y in rest;
      assert IsLeast(s, x);
    } else {
      LeastExists(rest);
      var m :| IsLeast(rest, m);
      assert forall y :: y in s ==> y == x || y in rest;
      assert IsLeast(s, if x < m then x else m);
    }
  }

  /** Sums a map over natural keys, taking the keys in ascending order. */
  function SumValues(m: map<nat, int>): (t: int)
    ensures t == Total(m)
    decreases |m|
  {
    if m.Keys == {} then 0 else
      var k := Least(m.Keys);
      TotalRemove(m, k);
      Shrinks(m, k);
      m[k] + SumValues(m - {k})
  }
}

/** Shared vocabulary. */
module Base {

  datatype Option<+T> = None | Some(value: T)

  function Max(a: int, b: int): (m: int)
    ensures m >= a && m >= b && (m == a || m == b)
  {
    if a > b then a else b
  }

  function Min(a: int, b: int): (m: int)
    ensures m <= a && m <= b && (m == a || m == b)
  {
    if a < b then a else b
  }

  function Get<K, V>(m: map<K, V>, k: K): Option<V> {
    if k in m then Some(m[k]) else None
  }
}

/** The few facts about products and quotients the solver does not find by itself. */
module Arithmetic {

  lemma MulGap(s: nat, x: int, y: int)
    requires x < y
    ensures s * x + s <= s * y
  {
    var d: nat := y - x - 1;
    assert y == x + d + 1;
    assert s * (x + d + 1) == s * x + s * d + s;
  }

  lemma MulAssociative(a: int, b: int, c: int)
    ensures a * (b * c) == a * b * c
  {
  }

  /** A quotient and remainder are determined by their defining equation. */
  lemma Quotient(a: nat, s: nat, q: int, r: nat)
    requires a == s * q + r && r < s
    ensures a / s == q && a % s == r
  {
    var d := a / s;
    if q < d {
      MulGap(s, q, d);
    } else if d < q {
      MulGap(s, d, q);
    }
  }

  /** A quotient rounded down: the largest p with p * b at most a. */
  lemma FloorMeaning(a: nat, b: nat, p: nat)
    requires b > 0
    ensures p <= a / b <==> p * b <= a
  {
    var q := a / b;
    if p <= q {
      if p < q { MulGap(b, p, q); }
    } else {
      MulGap(b, q, p);
    }
  }
}

/** Sums over the values of a finite map. */
module Sums {

  ghost function Sum<K>(m: map<K, int>): int
    decreases |m|
  {
    if m == map[] then 0
    else
      var k :| k in m;
      m[k] + Sum(m - {k})
  }

  lemma {:induction false} SumRemove<K>(m: map<K, int>, k: K)
    requires k in m
    ensures Sum(m) == m[k] + Sum(m - {k})
    decreases |m|
  {
    var c :| c in m && Sum(m) == m[c] + Sum(m - {c});
    if c != k {
      SumRemove(m - {c}, k);
      SumRemove(m - {k}, c);
      assert m - {c} - {k} == m - {k} - {c};
    }
  }

  lemma SumUpdate<K>(m: map<K, int>, k: K, v: int)
    ensures Sum(m[k := v]) == Sum(m) + v - (if k in m then m[k] else 0)
  {
    var u := m[k := v];
    SumRemove(u, k);
    if k in m {
      SumRemove(m, k);
      assert u - {k} == m - {k};
    } else {
      assert u - {k} == m;
    }
  }

  lemma {:induction false} SumNonNegative<K>(m: map<K, int>)
    requires forall k :: k in m ==> m[k] >= 0
    ensures Sum(m) >= 0
    ensures Sum(m) == 0 ==> forall k :: k in m ==> m[k] == 0
    decreases |m|
  {
    if m != map[] {
      var k :| k in m && Sum(m) == m[k] + Sum(m - {k});
      SumNonNegative(m - {k});
      assert forall j :: j in m && j != k ==> j in m - {k} && (m - {k})[j] == m[j];
    }
  }
}

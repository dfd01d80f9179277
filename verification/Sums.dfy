/** Sums over finite maps, quotients and binary digits. */
module Sums {

  /** Multiplication as repeated addition, which keeps counting arguments
      linear for the prover. */
  function Times(n: nat, k: nat): nat {
    if k == 0 then 0 else Times(n, k - 1) + n
  }

  lemma {:induction false} TimesIsProduct(n: nat, k: nat)
    ensures Times(n, k) == n * k
  {
    if 0 < k {
      TimesIsProduct(n, k - 1);
    }
  }

  lemma {:induction false} TimesGrows(n: nat, a: nat, b: nat)
    requires a <= b
    ensures Times(n, a) <= Times(n, b)
    ensures a < b ==> Times(n, a) + n <= Times(n, b)
  {
    if a < b {
      TimesGrows(n, a, b - 1);
    }
  }

  ghost function Total<K>(m: map<K, nat>): nat
    decreases |m|
  {
    if m == map[] then 0
    else
      var k :| k in m;
      m[k] + Total(m - {k})
  }

  /** The sum does not depend on which key is taken out first. */
  lemma {:induction false} TotalPick<K>(m: map<K, nat>, k: K)
    requires k in m
    ensures Total(m) == m[k] + Total(m - {k})
    decreases |m|
  {
    var first :| first in m && Total(m) == m[first] + Total(m - {first});
    if first != k {
      TotalPick(m - {first}, k);
      TotalPick(m - {k}, first);
      assert m - {first} - {k} == m - {k} - {first};
    }
  }

  lemma TotalUpdate<K>(m: map<K, nat>, k: K, v: nat)
    requires k in m
    ensures Total(m[k := v]) == Total(m) - m[k] + v
  {
    TotalPick(m, k);
    TotalPick(m[k := v], k);
    assert m[k := v] - {k} == m - {k};
  }

  /** Raising the entries of `raised` by one raises the sum by their number. */
  lemma {:induction false} TotalRaise<K>(m: map<K, nat>, n: map<K, nat>, raised: set<K>)
    requires n.Keys == m.Keys && raised <= m.Keys
    requires forall k :: k in m ==> n[k] == m[k] + if k in raised then 1 else 0
    ensures Total(n) == Total(m) + |raised|
    decreases |m|
  {
    if k :| k in m {
      TotalPick(m, k);
      TotalPick(n, k);
      TotalRaise(m - {k}, n - {k}, raised - {k});
      assert raised == if k in raised then (raised - {k}) + {k} else raised - {k};
    } else {
      assert m == map[] && n == map[];
    }
  }

  lemma Monotone(b: nat, x: nat, y: nat)
    requires x <= y
    ensures b * x <= b * y
  {
  }

  /** Quotient and remainder are unique. */
  lemma Quotient(a: nat, b: nat, q: nat, r: nat)
    requires 0 < b && a == b * q + r && r < b
    ensures a / b == q
  {
    var d := a / b;
    assert b * d + a % b == a;
    assert b * (d + 1) == b * d + b && b * (q + 1) == b * q + b;
    if d < q {
      Monotone(b, d + 1, q);
    } else if q < d {
      Monotone(b, q + 1, d);
    }
  }

  function Pow2(n: nat): (p: nat)
    ensures 0 < p
  {
    if n == 0 then 1 else 2 * Pow2(n - 1)
  }

  /** `n` halved `k` times, as a right shift does. */
  function Shifted(n: nat, k: nat): nat {
    if k == 0 then n else Shifted(n / 2, k - 1)
  }

  lemma Halves(n: nat, m: nat, r: nat, p: nat)
    requires n == 2 * m + r && r < 2 * p
    ensures n / 2 == m + r / 2 && r / 2 < p
  {
  }

  lemma Reassociate(p: nat, q: nat)
    ensures 2 * p * q == 2 * (p * q)
  {
  }

  lemma HalfOfQuotient(n: nat, p: nat, d: nat, q: nat, r: nat)
    requires 0 < p && d == 2 * p && n == d * q + r && r < d
    ensures n / 2 / p == q
  {
    Reassociate(p, q);
    Halves(n, p * q, r, p);
    Quotient(n / 2, p, q, r / 2);
  }

  lemma Division(n: nat, d: nat) returns (q: nat, r: nat)
    requires 0 < d
    ensures n == d * q + r && r < d && q == n / d
  {
    q, r := n / d, n % d;
  }

  lemma HalveThenDivide(n: nat, p: nat, d: nat)
    requires 0 < p && d == 2 * p
    ensures n / 2 / p == n / d
  {
    var q, r := Division(n, d);
    HalfOfQuotient(n, p, d, q, r);
  }

  lemma {:induction false} ShiftedIsQuotient(n: nat, k: nat)
    ensures Shifted(n, k) == n / Pow2(k)
  {
    if 0 < k {
      ShiftedIsQuotient(n / 2, k - 1);
      HalveThenDivide(n, Pow2(k - 1), Pow2(k));
    }
  }

  /** The number that bits stand for, least significant first. */
  function Number(bits: seq<bool>): nat {
    if bits == [] then 0 else (if bits[0] then 1 else 0) + 2 * Number(bits[1..])
  }

  /** Testing the lowest bit after each of the first `k` shifts yields the
      binary digits. */
  lemma {:induction false} ShiftsAreDigits(n: nat, bits: seq<bool>)
    requires n < Pow2(|bits|)
    requires forall i :: 0 <= i < |bits| ==> (bits[i] <==> Shifted(n, i) % 2 == 1)
    ensures Number(bits) == n
  {
    if bits != [] {
      var tail := bits[1..];
      forall i | 0 <= i < |tail|
        ensures tail[i] <==> Shifted(n / 2, i) % 2 == 1
      {
        assert tail[i] == bits[i + 1];
      }
      ShiftsAreDigits(n / 2, tail);
    }
  }
}

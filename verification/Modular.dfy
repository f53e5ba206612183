/** Division and remainder of natural numbers. */
module Modular {

  lemma MulMonotone(a: int, b: int, n: nat)
    requires a <= b
    ensures a * n <= b * n
  {
  }

  lemma SmallMultiple(e: int, n: nat)
    requires 0 - n < e * n < n
    ensures e == 0
  {
    if e >= 1 {
      MulMonotone(1, e, n);
    } else if e <= -1 {
      MulMonotone(e, -1, n);
    }
  }

  lemma DivModUnique(x: nat, n: nat, q: nat, r: nat)
    requires r < n && x == q * n + r
    ensures x / n == q && x % n == r
  {
    var e := x / n - q;
    assert e * n == r - x % n by {
      assert x == (x / n) * n + x % n;
      assert e * n == (x / n) * n - q * n;
    }
    SmallMultiple(e, n);
  }

  lemma ModSmall(x: nat, n: nat)
    requires x < n
    ensures x % n == x
  {
  }

  lemma ModShift(q: nat, n: nat, x: nat)
    requires n > 0
    ensures (q * n + x) % n == x % n
  {
    assert q * n + x == (q + x / n) * n + x % n by {
      assert x == (x / n) * n + x % n;
      assert (q + x / n) * n == q * n + (x / n) * n;
    }
    DivModUnique(q * n + x, n, q + x / n, x % n);
  }

  lemma DivModStep(m: nat, n: nat)
    requires n > 0
    ensures if m % n == n - 1 then (m + 1) % n == 0 && (m + 1) / n == m / n + 1
            else (m + 1) % n == m % n + 1 && (m + 1) / n == m / n
  {
    var q, r := m / n, m % n;
    assert m == q * n + r;
    if r == n - 1 {
      NextMultiple(q, n);
      DivModUnique(m + 1, n, q + 1, 0);
    } else {
      DivModUnique(m + 1, n, q, r + 1);
    }
  }

  lemma NextMultiple(q: nat, n: nat)
    ensures (q + 1) * n == q * n + n
  {
  }

  /** Any n consecutive numbers hit every residue modulo n. */
  lemma HitsResidue(start: nat, n: nat, i: nat) returns (o: nat)
    requires i < n
    ensures o < n && (start + o) % n == i
  {
    var q, r := start / n, start % n;
    if i >= r {
      o := i - r;
      DivModUnique(start + o, n, q, i);
    } else {
      o := i + n - r;
      NextMultiple(q, n);
      assert start + o == (q + 1) * n + i;
      DivModUnique(start + o, n, q + 1, i);
    }
  }

  lemma DivDrop(m: nat, n: nat)
    requires 0 < n <= m
    ensures m / n == (m - n) / n + 1
  {
    var q, r := (m - n) / n, (m - n) % n;
    assert m - n == q * n + r;
    NextMultiple(q, n);
    DivModUnique(m, n, q + 1, r);
  }
}

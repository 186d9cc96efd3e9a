/** Congruence of integers modulo a positive m, kept behind a predicate so that
    proofs about large moduli never divide by them. */
module ModArith {

  ghost predicate Cong(a: int, b: int, m: int)
    requires m > 0
  {
    (a - b) % m == 0
  }

  lemma MulMod(k: int, m: int)
    requires m > 0
    ensures (k * m) % m == 0
  {
    var q, r := (k * m) / m, (k * m) % m;
    assert (k - q) * m == r;
    var d := k - q;
    assert d >= 1 ==> d * m >= m;
    assert d <= -1 ==> d * m <= -m;
  }

  lemma Intro(a: int, b: int, k: int, m: int)
    requires m > 0 && a == b + k * m
    ensures Cong(a, b, m)
  {
    MulMod(k, m);
  }

  lemma Quotient(a: int, b: int, m: int) returns (k: int)
    requires m > 0 && Cong(a, b, m)
    ensures a == b + k * m
  {
    k := (a - b) / m;
  }

  lemma Refl(a: int, m: int)
    requires m > 0
    ensures Cong(a, a, m)
  {
    Intro(a, a, 0, m);
  }

  lemma Sym(a: int, b: int, m: int)
    requires m > 0 && Cong(a, b, m)
    ensures Cong(b, a, m)
  {
    var k := Quotient(a, b, m);
    Intro(b, a, -k, m);
  }

  lemma Trans(a: int, b: int, c: int, m: int)
    requires m > 0 && Cong(a, b, m) && Cong(b, c, m)
    ensures Cong(a, c, m)
  {
    var k := Quotient(a, b, m);
    var l := Quotient(b, c, m);
    assert (k + l) * m == k * m + l * m;
    Intro(a, c, k + l, m);
  }

  lemma Add(a: int, b: int, c: int, d: int, m: int)
    requires m > 0 && Cong(a, b, m) && Cong(c, d, m)
    ensures Cong(a + c, b + d, m) && Cong(a - c, b - d, m)
  {
    var k := Quotient(a, b, m);
    var l := Quotient(c, d, m);
    assert (k + l) * m == k * m + l * m && (k - l) * m == k * m - l * m;
    Intro(a + c, b + d, k + l, m);
    Intro(a - c, b - d, k - l, m);
  }

  lemma Mul(a: int, b: int, c: int, d: int, m: int)
    requires m > 0 && Cong(a, b, m) && Cong(c, d, m)
    ensures Cong(a * c, b * d, m)
  {
    var k := Quotient(a, b, m);
    var l := Quotient(c, d, m);
    var t := k * d + b * l + k * l * m;
    calc {
      a * c;
      (b + k * m) * (d + l * m);
      b * d + (k * m) * d + b * (l * m) + (k * m) * (l * m);
      b * d + (k * d) * m + (b * l) * m + (k * l * m) * m;
      b * d + t * m;
    }
    Intro(a * c, b * d, t, m);
  }

  /** Factors may be replaced by congruent ones. */
  lemma Chain(r: int, u: int, v: int, s: int, t: int, m: int)
    requires m > 0 && Cong(r, u * v, m) && Cong(u, s, m) && Cong(v, t, m)
    ensures Cong(r, s * t, m)
  {
    Mul(u, s, v, t, m);
    Trans(r, u * v, s * t, m);
  }

  function Pow(x: int, e: nat): int
  {
    if e == 0 then 1 else x * Pow(x, e - 1)
  }

  lemma {:induction false} PowAdd(x: int, a: nat, b: nat)
    ensures Pow(x, a + b) == Pow(x, a) * Pow(x, b)
  {
    if a > 0 {
      PowAdd(x, a - 1, b);
      calc {
        Pow(x, a + b);
        x * Pow(x, a - 1 + b);
        x * (Pow(x, a - 1) * Pow(x, b));
        (x * Pow(x, a - 1)) * Pow(x, b);
      }
    }
  }

  lemma {:induction false} PowCong(x: int, y: int, e: nat, m: int)
    requires m > 0 && Cong(x, y, m)
    ensures Cong(Pow(x, e), Pow(y, e), m)
  {
    if e == 0 {
      Refl(1, m);
    } else {
      PowCong(x, y, e - 1, m);
      Mul(x, y, Pow(x, e - 1), Pow(y, e - 1), m);
    }
  }

  // ---- Powers of two ----

  function Two(n: nat): (r: nat)
    ensures r >= 1
  {
    if n == 0 then 1 else 2 * Two(n - 1)
  }

  lemma {:induction false} TwoAdd(m: nat, n: nat)
    ensures Two(m + n) == Two(m) * Two(n)
  {
    if m > 0 {
      TwoAdd(m - 1, n);
      assert 2 * (Two(m - 1) * Two(n)) == (2 * Two(m - 1)) * Two(n);
    }
  }

  lemma SmallPowers()
    ensures Two(3) == 8 && Two(5) == 32 && Two(6) == 64 && Two(7) == 128
  {
    assert Two(4) == 16;
  }

  lemma BytePowers()
    ensures Two(8) == 0x100 && Two(16) == 0x10000 && Two(24) == 0x1000000
  {
    TwoAdd(8, 8);
    TwoAdd(16, 8);
  }

  // ---- Quotients by positive divisors ----

  lemma DivUnique(x: int, m: int, q: int, r: int)
    requires m > 0 && 0 <= r < m && x == m * q + r
    ensures x / m == q && x % m == r
  {
    var d := q - x / m;
    assert m * d == x % m - r;
    assert d >= 1 ==> m * d >= m;
    assert d <= -1 ==> m * d <= -m;
  }

  lemma Compose(h: int, d: int, e: int, b: int, r0: int, r1: int)
    requires d > 0 && e > 0 && 0 <= r0 < d && 0 <= r1 < e
    requires h == d * (e * b + r1) + r0
    ensures d * e > 0 && h / (d * e) == b
  {
    assert d * r1 <= d * (e - 1);
    calc {
      d * (e * b + r1) + r0;
      d * (e * b) + d * r1 + r0;
      (d * e) * b + (d * r1 + r0);
    }
    assert d * (e - 1) == d * e - d;
    DivUnique(h, d * e, b, d * r1 + r0);
  }

  lemma DivDiv(h: int, d: int, e: int)
    requires d > 0 && e > 0
    ensures d * e > 0 && h / d / e == h / (d * e)
  {
    var a := h / d;
    Compose(h, d, e, a / e, h % d, a % e);
  }

  lemma DivNonNegative(x: int, m: int)
    requires x >= 0 && m > 0
    ensures x / m >= 0
  {
  }

  /** Adding a multiple of 2 m to x leaves the parity of x / m alone. */
  lemma ParityOfQuotient(x: int, m: int, k: int)
    requires m > 0
    ensures (x + 2 * (m * k)) / m % 2 == x / m % 2
  {
    var (q, r) := (x / m, x % m);
    assert m * (q + 2 * k) == m * q + 2 * (m * k);
    DivUnique(x + 2 * (m * k), m, q + 2 * k, r);
  }
}

/** Bitwise operators on signed machine integers, read as two's complement strings with the
    sign repeated for ever; on i64 operands they agree with the operators of the machine. */
module SignedBits {
  import opened ModArith

  function Size(x: int): nat {
    if x < 0 then -1 - x else x
  }

  predicate AllOneSign(x: int) {
    x == 0 || x == -1
  }

  function Xor(a: int, b: int): int
    decreases Size(a) + Size(b)
  {
    if AllOneSign(a) && AllOneSign(b) then
      if a == b then 0 else -1
    else
      (a % 2 + b % 2) % 2 + 2 * Xor(a / 2, b / 2)
  }

  function And(a: int, b: int): int
    decreases Size(a) + Size(b)
  {
    if AllOneSign(a) && AllOneSign(b) then
      if a == 0 then 0 else b
    else
      (a % 2) * (b % 2) + 2 * And(a / 2, b / 2)
  }

  lemma {:induction false} XorCancels(a: int, b: int)
    ensures Xor(a, Xor(a, b)) == b
    decreases Size(a) + Size(b)
  {
    if !(AllOneSign(a) && AllOneSign(b)) {
      XorCancels(a / 2, b / 2);
      XorUnfolds(a, b);
      LowBit((a % 2 + b % 2) % 2, Xor(a / 2, b / 2), Xor(a, b));
      XorUnfolds(a, Xor(a, b));
      Parity(a % 2, b % 2);
      hide Xor;
    }
  }

  lemma LowBit(low: int, x: int, c: int)
    requires 0 <= low < 2 && c == low + 2 * x
    ensures c % 2 == low && c / 2 == x
  {
  }

  lemma Parity(p: int, q: int)
    requires 0 <= p < 2 && 0 <= q < 2
    ensures (p + (p + q) % 2) % 2 == q && 0 <= (p + q) % 2 < 2
  {
  }

  /** The recursive equation holds at the base values too. */
  lemma XorUnfolds(a: int, b: int)
    ensures Xor(a, b) == (a % 2 + b % 2) % 2 + 2 * Xor(a / 2, b / 2)
  {
  }

  lemma {:induction false} XorCommutes(a: int, b: int)
    ensures Xor(a, b) == Xor(b, a)
    decreases Size(a) + Size(b)
  {
    if !(AllOneSign(a) && AllOneSign(b)) {
      XorCommutes(a / 2, b / 2);
    }
  }

  lemma {:induction false} XorZero(a: int)
    ensures Xor(a, 0) == a
    decreases Size(a)
  {
    if !AllOneSign(a) {
      XorZero(a / 2);
    }
  }

  lemma {:induction false} AndMask(mask: int, x: int)
    requires AllOneSign(mask)
    ensures And(mask, x) == if mask == 0 then 0 else x
    decreases Size(x)
  {
    if !AllOneSign(x) {
      AndMask(mask, x / 2);
    }
  }

  /** The step of a masked exchange: all-ones swaps, zero keeps. */
  lemma MaskedExchange(a: int, b: int, mask: int)
    requires AllOneSign(mask)
    ensures var t := And(mask, Xor(a, b));
      if mask == 0 then Xor(a, t) == a && Xor(b, t) == b else Xor(a, t) == b && Xor(b, t) == a
  {
    AndMask(mask, Xor(a, b));
    XorZero(a);
    XorZero(b);
    XorCancels(a, b);
    XorCommutes(a, b);
    XorCancels(b, a);
  }

  // ---- Disjoint operands ----

  function Or(a: int, b: int): (r: int)
    ensures a >= 0 && b >= 0 ==> r >= 0
    decreases Size(a) + Size(b)
  {
    if AllOneSign(a) && AllOneSign(b) then
      if a == 0 then b else -1
    else
      (if a % 2 == 0 then b % 2 else 1) + 2 * Or(a / 2, b / 2)
  }

  lemma {:induction false} OrZero(b: int)
    ensures Or(0, b) == b && Or(b, 0) == b
    decreases Size(b)
  {
    if !AllOneSign(b) {
      OrZero(b / 2);
    }
  }

  /** The recursive equation holds at the base values too. */
  lemma OrUnfolds(a: int, b: int)
    ensures Or(a, b) == (if a % 2 == 0 then b % 2 else 1) + 2 * Or(a / 2, b / 2)
  { }

  lemma {:induction false} OrCommutes(a: int, b: int)
    ensures Or(a, b) == Or(b, a)
    decreases Size(a) + Size(b)
  {
    if !(AllOneSign(a) && AllOneSign(b)) {
      OrCommutes(a / 2, b / 2);
    }
  }

  lemma TwoZero()
    ensures Two(0) == 1
  { }

  lemma HalfOfTwo(k: nat)
    requires k > 0
    ensures Two(k) == 2 * Two(k - 1)
  { }

  lemma Twice(p: int, h: int, x: int)
    requires p == 2 * h
    ensures p * x == 2 * (h * x)
  { }

  lemma OrStep(low: int, c: int, d: int, e: int)
    requires Or(low / 2 + c, d) == low / 2 + e
    ensures Or(low + 2 * c, 2 * d) == low + 2 * e
  {
    OrUnfolds(low + 2 * c, 2 * d);
    hide Or;
  }

  /** The low k bits are untouched by a multiple of 2^k. */
  lemma {:induction false} OrFields(low: int, t: int, u: int, m: int, k: nat)
    requires m == Two(k) && 0 <= low < m
    ensures Or(low + m * t, m * u) == low + m * Or(t, u)
    decreases k
  {
    hide Or, Two;
    if k == 0 {
      TwoZero();
    } else {
      HalfOfTwo(k);
      var h := Two(k - 1);
      Twice(m, h, t);
      Twice(m, h, u);
      Twice(m, h, Or(t, u));
      OrFields(low / 2, t, u, h, k - 1);
      OrStep(low, h * t, h * u, h * Or(t, u));
    }
  }

  /** A field of k bits below a multiple of 2^k: the operator `|` adds them. */
  lemma OrIsSum(a: int, b: int, m: int, k: nat)
    requires m == Two(k) && 0 <= a < m
    ensures Or(a, m * b) == a + m * b
  {
    hide Or, Two;
    OrFields(a, 0, b, m, k);
    OrZero(b);
  }

  lemma OneBit(t: int)
    requires 0 <= t < 2
    ensures Or(t, 1) == 1
  {
    OrUnfolds(t, 1);
  }

  // ---- Masks ----

  lemma AndUnfolds(a: int, b: int)
    ensures And(a, b) == (a % 2) * (b % 2) + 2 * And(a / 2, b / 2)
  { }

  lemma {:induction false} AndZero(a: int)
    ensures And(a, 0) == 0
    decreases Size(a)
  {
    if !AllOneSign(a) {
      AndZero(a / 2);
    }
  }

  lemma AndStep(low: int, c: int, d: int, e: int)
    requires And(low / 2 + c, d) == e
    ensures And(low + 2 * c, 2 * d) == 2 * e
  {
    AndUnfolds(low + 2 * c, 2 * d);
    hide And;
  }

  lemma {:induction false} AndFields(low: int, t: int, u: int, m: int, k: nat)
    requires m == Two(k) && 0 <= low < m
    ensures And(low + m * t, m * u) == m * And(t, u)
    decreases k
  {
    hide And, Two;
    if k == 0 {
      TwoZero();
    } else {
      HalfOfTwo(k);
      var h := Two(k - 1);
      Twice(m, h, t);
      Twice(m, h, u);
      Twice(m, h, And(t, u));
      AndFields(low / 2, t, u, h, k - 1);
      AndStep(low, h * t, h * u, h * And(t, u));
    }
  }

  /** The mask of the low k bits is a remainder. */
  lemma {:induction false} AndLow(x: int, m: int, k: nat)
    requires m == Two(k)
    ensures m > 0 && And(x, m - 1) == x % m
    decreases k
  {
    hide And, Two;
    if k == 0 {
      TwoZero();
      AndZero(x);
    } else {
      HalfOfTwo(k);
      AndLow(x / 2, Two(k - 1), k - 1);
      AndUnfolds(x, m - 1);
      LowOfHalf(x, Two(k - 1));
    }
  }

  lemma LowOfHalf(x: int, h: int)
    requires h > 0
    ensures (2 * h - 1) % 2 == 1 && (2 * h - 1) / 2 == h - 1 && x % 2 + 2 * (x / 2 % h) == x % (2 * h)
  {
    var (q, r) := (x / 2 / h, x / 2 % h);
    Twice(2 * h, h, q);
    DivUnique(x, 2 * h, q, 2 * r + x % 2);
  }
}

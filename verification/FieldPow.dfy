/** The two fixed exponentiation chains of the field: inversion and square-root candidates. */
module FieldPow {
  import opened ModArith
  import opened Field25519

  const TWO252: int := 0x1000000000000000000000000000000000000000000000000000000000000000

  /** t is a legal factor representing x^e. */
  ghost predicate IsPow(t: Fe, x: int, e: nat) {
    Factor(t) && Cong(Value(t), Pow(x, e), P)
  }

  lemma PowProduct(r: int, f: int, g: int, x: int, a: nat, b: nat, m: int)
    requires m > 0 && Cong(r, f * g, m) && Cong(f, Pow(x, a), m) && Cong(g, Pow(x, b), m)
    ensures Cong(r, Pow(x, a + b), m)
  {
    hide Cong;
    Chain(r, f, g, Pow(x, a), Pow(x, b), m);
    PowAdd(x, a, b);
  }

  /** One multiplication of a chain: the exponents of the factors add up. */
  method MulPow(f: Fe, g: Fe, ghost x: int, ghost a: nat, ghost b: nat) returns (r: Fe)
    requires IsPow(f, x, a) && IsPow(g, x, b)
    ensures Reduced(r) && IsPow(r, x, a + b)
  {
    r := Field25519.Mul(f, g);
    PowProduct(Value(r), Value(f), Value(g), x, a, b, P);
  }

  lemma TwoSum(m: nat, n: nat, a: nat, b: nat)
    requires Two(m) == a && Two(n) == b
    ensures Two(m + n) == a * b
  {
    TwoAdd(m, n);
  }

  lemma TwoValues()
    ensures Two(1) == 2 && Two(2) == 4 && Two(5) == 0x20 && Two(10) == 0x400 && Two(20) == 0x100000
    ensures Two(50) == 0x4000000000000 && Two(100) == 0x10000000000000000000000000
  {
    TwoSum(5, 5, 0x20, 0x20);
    TwoSum(10, 10, 0x400, 0x400);
    TwoSum(20, 20, 0x100000, 0x100000);
    TwoSum(40, 10, 0x10000000000, 0x400);
    TwoSum(50, 50, 0x4000000000000, 0x4000000000000);
  }

  /** n squarings: a first one and the `for _ in 1..n` loop after it. */
  method SquareTimes(f: Fe, n: nat, ghost x: int, ghost e: nat) returns (t: Fe)
    requires n > 0 && IsPow(f, x, e)
    ensures Reduced(t) && IsPow(t, x, e * Two(n))
  {
    hide IsPow;
    t := MulPow(f, f, x, e, e);
    assert Two(1) == 2;
    for i := 1 to n
      invariant Reduced(t) && IsPow(t, x, e * Two(i))
    {
      t := MulPow(t, t, x, e * Two(i), e * Two(i));
      assert e * Two(i) + e * Two(i) == e * Two(i + 1);
    }
  }

  /** z^(p-2), the inverse of z by the little theorem of Fermat when p is prime and z is not 0. */
  method Invert(z: Fe) returns (r: Fe)
    requires Factor(z)
    ensures Reduced(r) && IsPow(r, Value(z), P - 2)
  {
    ghost var x := Value(z);
    assert Pow(x, 1) == x;
    Refl(x, P);
    TwoValues();
    hide Two, IsPow, Reduced, Factor, Within;
    var t0 := MulPow(z, z, x, 1, 1);
    var t1 := SquareTimes(t0, 2, x, 2);
    t1 := MulPow(z, t1, x, 1, 8);
    t0 := MulPow(t0, t1, x, 2, 9);
    var t2 := MulPow(t0, t0, x, 0xb, 0xb);
    t1 := MulPow(t1, t2, x, 9, 0x16);
    t2 := SquareTimes(t1, 5, x, 0x1f);
    t1 := MulPow(t2, t1, x, 0x3e0, 0x1f);
    t2 := SquareTimes(t1, 10, x, 0x3ff);
    t2 := MulPow(t2, t1, x, 0xffc00, 0x3ff);
    var t3 := SquareTimes(t2, 20, x, 0xfffff);
    t2 := MulPow(t3, t2, x, 0xfffff00000, 0xfffff);
    t2 := SquareTimes(t2, 10, x, 0xffffffffff);
    t1 := MulPow(t2, t1, x, 0x3fffffffffc00, 0x3ff);
    t2 := SquareTimes(t1, 50, x, 0x3ffffffffffff);
    t2 := MulPow(t2, t1, x, 0xffffffffffffc000000000000, 0x3ffffffffffff);
    t3 := SquareTimes(t2, 100, x, 0xfffffffffffffffffffffffff);
    t2 := MulPow(t3, t2, x, 0xfffffffffffffffffffffffff0000000000000000000000000, 0xfffffffffffffffffffffffff);
    t2 := SquareTimes(t2, 50, x, 0xffffffffffffffffffffffffffffffffffffffffffffffffff);
    t1 := MulPow(t2, t1, x, 0x3fffffffffffffffffffffffffffffffffffffffffffffffffc000000000000, 0x3ffffffffffff);
    t1 := SquareTimes(t1, 5, x, 0x3ffffffffffffffffffffffffffffffffffffffffffffffffffffffffffffff);
    r := MulPow(t0, t1, x, 0xb, 0x7fffffffffffffffffffffffffffffffffffffffffffffffffffffffffffffe0);
  }

  /** z^((p-5)/8), with (p-5)/8 = 2^252 - 3. */
  method Pow22523(z: Fe) returns (r: Fe)
    requires Factor(z)
    ensures Reduced(r) && IsPow(r, Value(z), TWO252 - 3)
  {
    ghost var x := Value(z);
    assert Pow(x, 1) == x;
    Refl(x, P);
    TwoValues();
    hide Two, IsPow, Reduced, Factor, Within;
    var t0 := MulPow(z, z, x, 1, 1);
    var t1 := SquareTimes(t0, 2, x, 2);
    t1 := MulPow(z, t1, x, 1, 8);
    t0 := MulPow(t0, t1, x, 2, 9);
    t0 := MulPow(t0, t0, x, 0xb, 0xb);
    t0 := MulPow(t1, t0, x, 9, 0x16);
    t1 := SquareTimes(t0, 5, x, 0x1f);
    t0 := MulPow(t1, t0, x, 0x3e0, 0x1f);
    t1 := SquareTimes(t0, 10, x, 0x3ff);
    t1 := MulPow(t1, t0, x, 0xffc00, 0x3ff);
    var t2 := SquareTimes(t1, 20, x, 0xfffff);
    t1 := MulPow(t2, t1, x, 0xfffff00000, 0xfffff);
    t1 := SquareTimes(t1, 10, x, 0xffffffffff);
    t0 := MulPow(t1, t0, x, 0x3fffffffffc00, 0x3ff);
    t1 := SquareTimes(t0, 50, x, 0x3ffffffffffff);
    t1 := MulPow(t1, t0, x, 0xffffffffffffc000000000000, 0x3ffffffffffff);
    t2 := SquareTimes(t1, 100, x, 0xfffffffffffffffffffffffff);
    t1 := MulPow(t2, t1, x, 0xfffffffffffffffffffffffff0000000000000000000000000, 0xfffffffffffffffffffffffff);
    t1 := SquareTimes(t1, 50, x, 0xffffffffffffffffffffffffffffffffffffffffffffffffff);
    t0 := MulPow(t1, t0, x, 0x3fffffffffffffffffffffffffffffffffffffffffffffffffc000000000000, 0x3ffffffffffff);
    t0 := SquareTimes(t0, 2, x, 0x3ffffffffffffffffffffffffffffffffffffffffffffffffffffffffffffff);
    r := MulPow(z, t0, x, 1, 0xffffffffffffffffffffffffffffffffffffffffffffffffffffffffffffffc);
  }
}

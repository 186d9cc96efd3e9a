/** Arithmetic in the field of 256 elements that AES uses: bytes as polynomials modulo x^8 + x^4 + x^3 + x + 1.
    The multiplications of the code, a loop and a branch-free unrolling, compute the same product, and the
    field laws hold of it (section 4.2 of FIPS 197). */
module Gf256 {

  function Xor(a: bv8, b: bv8): bv8 { a ^ b }

  /** Multiplication by x. */
  function Xt(a: bv8): bv8 { (a << 1) ^ (0x1b & (0 - (a >> 7))) }

  /** a where the low bit of b is set, else 0. */
  function Pick(a: bv8, b: bv8): bv8 { a & (0 - (b & 1)) }

  function Half(b: bv8): bv8 { b >> 1 }

  /** The n low bits of b, each picking its multiple of a. */
  function MulBits(a: bv8, b: bv8, n: nat): bv8
    decreases n
  {
    if n == 0 then 0 else Xor(Pick(a, b), MulBits(Xt(a), Half(b), n - 1))
  }

  function Mul(a: bv8, b: bv8): bv8 {
    MulBits(a, b, 8)
  }

  // ---- Linearity ----

  lemma XorLaws(a: bv8, b: bv8)
    ensures Xor(a, b) == Xor(b, a) && Xor(a, 0) == a && Xor(a, a) == 0
  {
  }

  lemma XorTwice(a: bv8, b: bv8)
    ensures Xor(Xor(a, b), b) == a
  { }

  lemma XorSwap(a: bv8, b: bv8, c: bv8, d: bv8)
    ensures Xor(Xor(a, b), Xor(c, d)) == Xor(Xor(a, c), Xor(b, d))
  {
    assert Xor(a ^ b, c ^ d) == Xor(a ^ c, b ^ d);
  }

  lemma XtLinear(a: bv8, b: bv8)
    ensures Xt(Xor(a, b)) == Xor(Xt(a), Xt(b))
  { }

  predicate OddByte(b: bv8) {
    b & 1 != 0
  }

  lemma LowBit(a: bv8, b: bv8)
    ensures Pick(a, b) == a || !OddByte(b)
    ensures Pick(a, b) == 0 || OddByte(b)
  {
  }

  lemma OddXor(b: bv8, c: bv8)
    ensures OddByte(Xor(b, c)) <==> OddByte(b) != OddByte(c)
  { }

  lemma HalfXor(b: bv8, c: bv8)
    ensures Half(Xor(b, c)) == Xor(Half(b), Half(c))
  { }

  lemma PickLinear(a: bv8, b: bv8, c: bv8)
    ensures Pick(Xor(a, b), c) == Xor(Pick(a, c), Pick(b, c))
    ensures Pick(a, Xor(b, c)) == Xor(Pick(a, b), Pick(a, c))
    ensures Half(Xor(b, c)) == Xor(Half(b), Half(c))
  {
    hide Xor, Pick, Half, OddByte;
    LowBit(Xor(a, b), c);
    LowBit(a, c);
    LowBit(b, c);
    LowBit(a, Xor(b, c));
    LowBit(a, b);
    OddXor(b, c);
    HalfXor(b, c);
    XorLaws(a, 0);
    XorLaws(0, a);
    XorLaws(0, 0);
  }

  lemma {:induction false} MulBitsLinear(a: bv8, b: bv8, c: bv8, n: nat)
    ensures MulBits(Xor(a, b), c, n) == Xor(MulBits(a, c, n), MulBits(b, c, n))
    ensures MulBits(a, Xor(b, c), n) == Xor(MulBits(a, b, n), MulBits(a, c, n))
    decreases n
  {
    hide Xor, Xt, Pick, Half;
    if n == 0 {
      XorLaws(0, 0);
    } else {
      XtLinear(a, b);
      PickLinear(a, b, c);
      MulBitsLinear(Xt(a), Xt(b), Half(c), n - 1);
      MulBitsLinear(Xt(a), Half(b), Half(c), n - 1);
      XorSwap(Pick(a, c), Pick(b, c), MulBits(Xt(a), Half(c), n - 1), MulBits(Xt(b), Half(c), n - 1));
      XorSwap(Pick(a, b), Pick(a, c), MulBits(Xt(a), Half(b), n - 1), MulBits(Xt(a), Half(c), n - 1));
    }
  }

  lemma MulLinear(a: bv8, b: bv8, c: bv8)
    ensures Mul(Xor(a, b), c) == Xor(Mul(a, c), Mul(b, c))
    ensures Mul(a, Xor(b, c)) == Xor(Mul(a, b), Mul(a, c))
  {
    MulBitsLinear(a, b, c, 8);
  }

  // ---- A linear map is known by its values at the eight powers of x ----

  ghost predicate Linear(f: bv8 -> bv8) {
    forall a, b :: f(Xor(a, b)) == Xor(f(a), f(b))
  }

  ghost predicate SameOnBasis(f: bv8 -> bv8, g: bv8 -> bv8) {
    && f(0x01) == g(0x01) && f(0x02) == g(0x02) && f(0x04) == g(0x04) && f(0x08) == g(0x08)
    && f(0x10) == g(0x10) && f(0x20) == g(0x20) && f(0x40) == g(0x40) && f(0x80) == g(0x80)
  }

  /** The part of x below a bit, and the bit. */
  lemma Peel(x: bv8)
    ensures x == Xor(x & 0x7F, x & 0x80) && (x & 0x80 == 0 || x & 0x80 == 0x80)
    ensures x & 0x7F == Xor(x & 0x3F, x & 0x40) && (x & 0x40 == 0 || x & 0x40 == 0x40)
    ensures x & 0x3F == Xor(x & 0x1F, x & 0x20) && (x & 0x20 == 0 || x & 0x20 == 0x20)
    ensures x & 0x1F == Xor(x & 0x0F, x & 0x10) && (x & 0x10 == 0 || x & 0x10 == 0x10)
    ensures x & 0x0F == Xor(x & 0x07, x & 0x08) && (x & 0x08 == 0 || x & 0x08 == 0x08)
    ensures x & 0x07 == Xor(x & 0x03, x & 0x04) && (x & 0x04 == 0 || x & 0x04 == 0x04)
    ensures x & 0x03 == Xor(x & 0x01, x & 0x02) && (x & 0x02 == 0 || x & 0x02 == 0x02)
    ensures x & 0x01 == 0 || x & 0x01 == 0x01
  {
  }

  lemma LinearAtZero(f: bv8 -> bv8)
    requires Linear(f)
    ensures f(0) == 0
  {
    hide Xor;
    XorLaws(0, 0);
    XorLaws(f(0), f(0));
    assert f(Xor(0, 0)) == Xor(f(0), f(0));
  }

  lemma Join(f: bv8 -> bv8, g: bv8 -> bv8, x: bv8, a: bv8, b: bv8)
    requires Linear(f) && Linear(g) && x == Xor(a, b) && f(a) == g(a) && f(b) == g(b)
    ensures f(x) == g(x)
  { }

  lemma LinearSame(f: bv8 -> bv8, g: bv8 -> bv8, x: bv8)
    requires Linear(f) && Linear(g) && SameOnBasis(f, g)
    ensures f(x) == g(x)
  {
    hide Xor, Linear;
    LinearAtZero(f);
    LinearAtZero(g);
    Peel(x);
    Join(f, g, x & 0x03, x & 0x01, x & 0x02);
    Join(f, g, x & 0x07, x & 0x03, x & 0x04);
    Join(f, g, x & 0x0F, x & 0x07, x & 0x08);
    Join(f, g, x & 0x1F, x & 0x0F, x & 0x10);
    Join(f, g, x & 0x3F, x & 0x1F, x & 0x20);
    Join(f, g, x & 0x7F, x & 0x3F, x & 0x40);
    Join(f, g, x, x & 0x7F, x & 0x80);
  }

  // ---- The field laws ----

  lemma LeftLinear(b: bv8)
    ensures Linear((a: bv8) => Mul(a, b)) && Linear((c: bv8) => Mul(b, c))
  {
    hide Mul, Xor;
    forall a, c ensures Mul(Xor(a, c), b) == Xor(Mul(a, b), Mul(c, b)) &&
        Mul(b, Xor(a, c)) == Xor(Mul(b, a), Mul(b, c)) {
      MulLinear(a, c, b);
      MulLinear(b, a, c);
    }
  }

  lemma {:induction false} MulZero(a: bv8, n: nat)
    ensures MulBits(a, 0, n) == 0
    decreases n
  {
    if n > 0 {
      MulZero(Xt(a), n - 1);
    }
  }

  /** x to the k. */
  function Power(a: bv8, k: nat): bv8 {
    if k == 0 then a else Xt(Power(a, k - 1))
  }

  lemma {:induction false} PowerAdd(a: bv8, j: nat, k: nat)
    ensures Power(Power(a, j), k) == Power(a, j + k)
  {
    if k > 0 {
      PowerAdd(a, j, k - 1);
    }
  }

  lemma {:induction false} PowerFront(a: bv8, k: nat)
    ensures Power(Xt(a), k) == Power(a, k + 1)
  {
    if k > 0 {
      PowerFront(a, k - 1);
    }
  }

  lemma BasisIs()
    ensures Power(1, 0) == 0x01 && Power(1, 1) == 0x02 && Power(1, 2) == 0x04 && Power(1, 3) == 0x08
    ensures Power(1, 4) == 0x10 && Power(1, 5) == 0x20 && Power(1, 6) == 0x40 && Power(1, 7) == 0x80
  { }

  lemma BasisBit(k: nat)
    requires k < 8
    ensures k > 0 ==> Half(Power(1, k)) == Power(1, k - 1) && forall a :: Pick(a, Power(1, k)) == 0
    ensures Half(1) == 0 && forall a :: Pick(a, 1) == a
  {
    hide Power;
    BasisIs();
    assert Half(0x02) == 0x01 && Half(0x04) == 0x02 && Half(0x08) == 0x04 && Half(0x10) == 0x08;
    assert Half(0x20) == 0x10 && Half(0x40) == 0x20 && Half(0x80) == 0x40 && Half(0x01) == 0;
  }

  /** Multiplying by x to the k takes k steps. */
  lemma {:induction false} MulBitsPower(a: bv8, k: nat, n: nat)
    requires k < n && k < 8
    ensures MulBits(a, Power(1, k), n) == Power(a, k)
    decreases k
  {
    hide Xt, Xor, Pick, Half;
    BasisBit(k);
    if k == 0 {
      MulZero(Xt(a), n - 1);
      XorLaws(a, 0);
    } else {
      MulBitsPower(Xt(a), k - 1, n - 1);
      PowerFront(a, k - 1);
      XorLaws(0, Power(a, k));
      XorLaws(Power(a, k), 0);
    }
  }

  lemma MulPower(a: bv8, k: nat)
    requires k < 8
    ensures Mul(a, Power(1, k)) == Power(a, k)
  {
    hide MulBits, Power;
    MulBitsPower(a, k, 8);
  }

  lemma MulOne(a: bv8)
    ensures Mul(a, 1) == a
  {
    hide Mul;
    MulPower(a, 0);
  }

  /** Two linear maps that agree on the powers of x below eight agree. */
  lemma LinearByPowers(f: bv8 -> bv8, g: bv8 -> bv8, x: bv8)
    requires Linear(f) && Linear(g) && forall k :: 0 <= k < 8 ==> f(Power(1, k)) == g(Power(1, k))
    ensures f(x) == g(x)
  {
    hide Linear, Power;
    BasisIs();
    LinearSame(f, g, x);
  }

  lemma PowerCommutes(a: bv8, k: nat)
    requires k < 8
    ensures Mul(a, Power(1, k)) == Mul(Power(1, k), a)
  {
    hide Mul, Power, Linear;
    var e := Power(1, k);
    LeftLinear(e);
    forall j | 0 <= j < 8 ensures Mul(Power(1, j), e) == Mul(e, Power(1, j)) {
      MulPower(Power(1, j), k);
      MulPower(e, j);
      PowerAdd(1, j, k);
      PowerAdd(1, k, j);
    }
    LinearByPowers(a => Mul(a, e), c => Mul(e, c), a);
  }

  lemma MulCommutes(a: bv8, b: bv8)
    ensures Mul(a, b) == Mul(b, a)
  {
    hide Mul, Power, Linear;
    LeftLinear(a);
    forall k | 0 <= k < 8 ensures Mul(Power(1, k), a) == Mul(a, Power(1, k)) {
      PowerCommutes(a, k);
    }
    LinearByPowers(c => Mul(c, a), c => Mul(a, c), b);
  }

  lemma {:induction false} MulBitsXt(a: bv8, b: bv8, n: nat)
    ensures MulBits(Xt(a), b, n) == Xt(MulBits(a, b, n))
    decreases n
  {
    hide Xt, Xor, Pick, Half;
    if n == 0 {
      assert Xt(0) == 0 by { XtZero(); }
    } else {
      MulBitsXt(Xt(a), Half(b), n - 1);
      XtLinear(Pick(a, b), MulBits(Xt(a), Half(b), n - 1));
      PickXt(a, b);
    }
  }

  lemma XtZero()
    ensures Xt(0) == 0
  {
  }

  lemma PickXt(a: bv8, b: bv8)
    ensures Pick(Xt(a), b) == Xt(Pick(a, b))
  { }

  lemma {:induction false} PowerOut(a: bv8, b: bv8, k: nat)
    ensures Mul(a, Power(b, k)) == Power(Mul(a, b), k)
  {
    hide Mul, Xt;
    if k > 0 {
      PowerOut(a, b, k - 1);
      var p := Power(b, k - 1);
      MulCommutes(a, Xt(p));
      assert Mul(Xt(p), a) == Xt(Mul(p, a)) by { MulXt(p, a); }
      MulCommutes(p, a);
    }
  }

  lemma MulXt(a: bv8, b: bv8)
    ensures Mul(Xt(a), b) == Xt(Mul(a, b))
  {
    MulBitsXt(a, b, 8);
  }

  lemma MulAssociates(a: bv8, b: bv8, c: bv8)
    ensures Mul(Mul(a, b), c) == Mul(a, Mul(b, c))
  {
    hide Mul, Power, Linear;
    LeftLinear(Mul(a, b));
    ComposeLinear(a, b);
    forall k | 0 <= k < 8 ensures Mul(Mul(a, b), Power(1, k)) == Mul(a, Mul(b, Power(1, k))) {
      MulPower(Mul(a, b), k);
      MulPower(b, k);
      PowerOut(a, b, k);
    }
    LinearByPowers(c => Mul(Mul(a, b), c), c => Mul(a, Mul(b, c)), c);
  }

  lemma ComposeLinear(a: bv8, b: bv8)
    ensures Linear((c: bv8) => Mul(a, Mul(b, c)))
  {
    hide Mul, Xor;
    forall c, d ensures Mul(a, Mul(b, Xor(c, d))) == Xor(Mul(a, Mul(b, c)), Mul(a, Mul(b, d))) {
      MulLinear(b, c, d);
      MulLinear(a, Mul(b, c), Mul(b, d));
    }
  }

  // ---- Squares and inverses ----

  function Square(a: bv8): bv8 {
    Mul(a, a)
  }

  lemma SquareXor(a: bv8, b: bv8)
    ensures Square(Xor(a, b)) == Xor(Square(a), Square(b))
  {
    hide Mul, Xor;
    var (p, q) := (Mul(a, a), Mul(a, b));
    MulLinear(a, b, Xor(a, b));
    MulLinear(a, a, b);
    MulLinear(b, a, b);
    MulCommutes(a, b);
    SquareCross(p, q, Mul(b, b));
  }

  lemma SquareCross(p: bv8, q: bv8, r: bv8)
    ensures Xor(Xor(p, q), Xor(q, r)) == Xor(p, r)
  { }

  lemma PowerIsMul(a: bv8, n: nat)
    ensures Mul(a, Power(1, n)) == Power(a, n)
  {
    hide Mul, Power;
    PowerOut(a, 1, n);
    MulOne(a);
  }

  lemma SquarePower(n: nat)
    ensures Square(Power(1, n)) == Power(1, 2 * n)
  {
    hide Mul, Power;
    PowerIsMul(Power(1, n), n);
    PowerAdd(1, n, n);
  }

  /** x to the 51 is 1. */
  lemma OrderOfX()
    ensures Power(1, 51) == 1
  {
    hide Power, Mul;
    BasisIs();
    assert Power(1, 8) == 0x1b by { PowerAdd(1, 7, 1); NextPower(0x80); assert Xt(0x80) == 0x1b; }
    Products();
    PowerIsMul(Power(1, 8), 8);
    PowerAdd(1, 8, 8);
    PowerIsMul(Power(1, 16), 16);
    PowerAdd(1, 16, 16);
    PowerIsMul(Power(1, 32), 16);
    PowerAdd(1, 32, 16);
    PowerIsMul(Power(1, 48), 3);
    PowerAdd(1, 48, 3);
  }

  lemma NextPower(a: bv8)
    ensures Power(a, 1) == Xt(a)
  { }

  lemma Products()
    ensures Mul(0x1b, 0x1b) == 0x5e && Mul(0x5e, 0x5e) == 0xe4
    ensures Mul(0xe4, 0x5e) == 0xe8 && Mul(0xe8, 0x08) == 0x01
  {
  }

  lemma {:induction false} PowerPeriod(n: nat, t: nat)
    ensures Power(1, n + 255 * t) == Power(1, n)
  {
    hide Power;
    if t > 0 {
      PowerPeriod(n, t - 1);
      OrderOfX();
      PowerAdd(1, 51, 51);
      PowerAdd(1, 102, 51);
      PowerAdd(1, 153, 51);
      PowerAdd(1, 204, 51);
      PowerAdd(1, 255, n + 255 * (t - 1));
    }
  }

  function Square8(a: bv8): bv8 {
    Square(Square(Square(Square(Square(Square(Square(Square(a))))))))
  }

  lemma Square8Linear()
    ensures Linear(Square8)
  {
    hide Square, Xor;
    forall a, b ensures Square8(Xor(a, b)) == Xor(Square8(a), Square8(b)) {
      Square8Xor(a, b);
    }
  }

  lemma Square8Xor(a: bv8, b: bv8)
    ensures Square8(Xor(a, b)) == Xor(Square8(a), Square8(b))
  {
    hide Square, Xor;
    var (a1, b1) := (Square(a), Square(b));
    var (a2, b2) := (Square(a1), Square(b1));
    var (a3, b3) := (Square(a2), Square(b2));
    var (a4, b4) := (Square(a3), Square(b3));
    var (a5, b5) := (Square(a4), Square(b4));
    var (a6, b6) := (Square(a5), Square(b5));
    SquareXor(a, b);
    SquareXor(a1, b1);
    SquareXor(a2, b2);
    SquareXor(a3, b3);
    SquareXor(a4, b4);
    SquareXor(a5, b5);
    SquareXor(a6, b6);
    SquareXor(Square(a6), Square(b6));
  }

  /** Every element is its own 256th power. */
  lemma Square8IsIdentity(a: bv8)
    ensures Square8(a) == a
  {
    hide Square, Power, Linear, Xor;
    Square8Linear();
    assert Linear((x: bv8) => x) by { IdentityLinear(); }
    forall k | 0 <= k < 8 ensures Square8(Power(1, k)) == Power(1, k) {
      SquarePower(k);
      SquarePower(2 * k);
      SquarePower(4 * k);
      SquarePower(8 * k);
      SquarePower(16 * k);
      SquarePower(32 * k);
      SquarePower(64 * k);
      SquarePower(128 * k);
      PowerPeriod(k, k);
    }
    LinearByPowers(Square8, x => x, a);
  }

  lemma IdentityLinear()
    ensures Linear((x: bv8) => x)
  {
  }

  function Exp(a: bv8, n: nat): bv8 {
    if n == 0 then 1 else Mul(Exp(a, n - 1), a)
  }

  lemma {:induction false} ExpAdd(a: bv8, m: nat, n: nat)
    ensures Exp(a, m + n) == Mul(Exp(a, m), Exp(a, n))
  {
    hide Mul;
    if n == 0 {
      MulOne(Exp(a, m));
    } else {
      ExpAdd(a, m, n - 1);
      MulAssociates(Exp(a, m), Exp(a, n - 1), a);
    }
  }

  lemma ExpOne(a: bv8)
    ensures Exp(a, 1) == a
  {
    hide Mul;
    assert Exp(a, 0) == 1;
    MulCommutes(1, a);
    MulOne(a);
  }

  /** The addition chain of the branch-free S-box: seven squarings and six products. */
  function Inverse(x: bv8): bv8 {
    var x2 := Square(x);
    var x4 := Square(x2);
    var x8 := Square(x4);
    var x16 := Square(x8);
    var x32 := Square(x16);
    var x64 := Square(x32);
    var x128 := Square(x64);
    Mul(Mul(Mul(Mul(Mul(Mul(x2, x4), x8), x16), x32), x64), x128)
  }

  lemma InverseIsPower(x: bv8)
    ensures Inverse(x) == Exp(x, 254)
  {
    hide Mul, Exp;
    ExpOne(x);
    ExpAdd(x, 1, 1);
    ExpAdd(x, 2, 2);
    ExpAdd(x, 4, 4);
    ExpAdd(x, 8, 8);
    ExpAdd(x, 16, 16);
    ExpAdd(x, 32, 32);
    ExpAdd(x, 64, 64);
    ExpAdd(x, 2, 4);
    ExpAdd(x, 6, 8);
    ExpAdd(x, 14, 16);
    ExpAdd(x, 30, 32);
    ExpAdd(x, 62, 64);
    ExpAdd(x, 126, 128);
  }

  lemma Exp256(x: bv8)
    ensures Exp(x, 256) == x
  {
    hide Mul, Exp;
    Square8IsIdentity(x);
    ExpOne(x);
    ExpAdd(x, 1, 1);
    ExpAdd(x, 2, 2);
    ExpAdd(x, 4, 4);
    ExpAdd(x, 8, 8);
    ExpAdd(x, 16, 16);
    ExpAdd(x, 32, 32);
    ExpAdd(x, 64, 64);
    ExpAdd(x, 128, 128);
  }

  /** What the chain computes is the inverse, wherever there is one. */
  lemma InverseIs(x: bv8, y: bv8)
    requires Mul(x, y) == 1
    ensures Inverse(x) == y
  {
    hide Mul, Exp, Inverse;
    InverseIsPower(x);
    Exp256(x);
    var (e, f) := (Exp(x, 254), Exp(x, 255));
    ExpOne(x);
    ExpAdd(x, 254, 1);
    ExpAdd(x, 255, 1);
    MulAssociates(f, x, y);
    MulOne(f);
    assert f == 1;
    MulAssociates(e, x, y);
    MulOne(e);
    MulCommutes(1, y);
    MulOne(y);
  }

  lemma InverseOfZero()
    ensures Inverse(0) == 0
  {
    hide MulBits;
    MulZero(0, 8);
  }

  // ---- The code's multiplications ----

  /** gf_mul_ct: eight picks, no branch. */
  function MulCt(a: bv8, b: bv8): bv8 {
    var a1 := Xt(a);
    var a2 := Xt(a1);
    var a3 := Xt(a2);
    var a4 := Xt(a3);
    var a5 := Xt(a4);
    var a6 := Xt(a5);
    var a7 := Xt(a6);
    var r0 := Pick(a, b);
    var r1 := Xor(r0, Pick(a1, b >> 1));
    var r2 := Xor(r1, Pick(a2, b >> 2));
    var r3 := Xor(r2, Pick(a3, b >> 3));
    var r4 := Xor(r3, Pick(a4, b >> 4));
    var r5 := Xor(r4, Pick(a5, b >> 5));
    var r6 := Xor(r5, Pick(a6, b >> 6));
    Xor(r6, Pick(a7, b >> 7))
  }

  /** The bits of b from k on. */
  lemma {:induction false} Rest(a: bv8, b: bv8, r: bv8, n: nat)
    requires n > 0
    ensures Xor(r, MulBits(a, b, n)) == Xor(Xor(r, Pick(a, b)), MulBits(Xt(a), Half(b), n - 1))
  { }

  lemma Shifts(b: bv8)
    ensures Half(b) == b >> 1 && Half(b >> 1) == b >> 2 && Half(b >> 2) == b >> 3 && Half(b >> 3) == b >> 4
    ensures Half(b >> 4) == b >> 5 && Half(b >> 5) == b >> 6 && Half(b >> 6) == b >> 7 && Half(b >> 7) == 0
  {
  }

  lemma MulCtIsMul(a: bv8, b: bv8)
    ensures MulCt(a, b) == Mul(a, b)
  {
    hide Xt, Pick, Half, Xor, MulBits;
    Shifts(b);
    var a1 := Xt(a);
    var a2 := Xt(a1);
    var a3 := Xt(a2);
    var a4 := Xt(a3);
    var a5 := Xt(a4);
    var a6 := Xt(a5);
    var a7 := Xt(a6);
    var r0 := Pick(a, b);
    var r1 := Xor(r0, Pick(a1, b >> 1));
    var r2 := Xor(r1, Pick(a2, b >> 2));
    var r3 := Xor(r2, Pick(a3, b >> 3));
    var r4 := Xor(r3, Pick(a4, b >> 4));
    var r5 := Xor(r4, Pick(a5, b >> 5));
    var r6 := Xor(r5, Pick(a6, b >> 6));
    FirstPick(a, b);
    Rest(a1, b >> 1, r0, 7);
    Rest(a2, b >> 2, r1, 6);
    Rest(a3, b >> 3, r2, 5);
    Rest(a4, b >> 4, r3, 4);
    Rest(a5, b >> 5, r4, 3);
    Rest(a6, b >> 6, r5, 2);
    Rest(a7, b >> 7, r6, 1);
    MulZero(Xt(a7), 0);
    XorLaws(MulCt(a, b), 0);
  }

  lemma FirstPick(a: bv8, b: bv8)
    ensures Mul(a, b) == Xor(Pick(a, b), MulBits(Xt(a), Half(b), 7))
  { }

  function HighBit(a: bv8): bool {
    a & 0x80 != 0
  }

  /** One turn of the loop's doubling. */
  lemma XtIs(a: bv8)
    ensures HighBit(a) ==> Xor(a << 1, 0x1b) == Xt(a)
    ensures !HighBit(a) ==> a << 1 == Xt(a)
  { }

  function Shifted(b: bv8, n: nat): bv8 {
    if n == 0 then b else Half(Shifted(b, n - 1))
  }

  lemma ShiftedOut(b: bv8)
    ensures Shifted(b, 8) == 0
  {
    hide Half;
    Shifts(b);
    assert Shifted(b, 1) == b >> 1 && Shifted(b, 2) == b >> 2 && Shifted(b, 3) == b >> 3 && Shifted(b, 4) == b >> 4;
    assert Shifted(b, 5) == b >> 5 && Shifted(b, 6) == b >> 6 && Shifted(b, 7) == b >> 7;
  }

  /** What a turn of the loop leaves to be added. */
  lemma Turn(a: bv8, b: bv8, r: bv8, n: nat)
    requires n > 0
    ensures OddByte(b) ==> Xor(r, MulBits(a, b, n)) == Xor(Xor(r, a), MulBits(Xt(a), Half(b), n - 1))
    ensures !OddByte(b) ==> Xor(r, MulBits(a, b, n)) == Xor(r, MulBits(Xt(a), Half(b), n - 1))
  { }

  /** gf_mul: the loop that stops when no bit is left. */
  method GfMul(a: bv8, b: bv8) returns (result: bv8)
    ensures result == Mul(a, b)
  {
    hide Xt, Pick, Half, Xor, HighBit, OddByte, MulBits;
    result := 0;
    var (x, y) := (a, b);
    ghost var n := 8;
    XorLaws(MulBits(a, b, 8), 0);
    XorLaws(0, MulBits(a, b, 8));
    while y != 0
      invariant 0 <= n <= 8 && y == Shifted(b, 8 - n)
      invariant Xor(result, MulBits(x, y, n)) == Mul(a, b)
      decreases n
    {
      ShiftedOut(b);
      Turn(x, y, result, n);
      if OddByte(y) {
        result := Xor(result, x);
      }
      XtIs(x);
      if HighBit(x) {
        x := Xor(x << 1, 0x1b);
      } else {
        x := x << 1;
      }
      Shifts(y);
      y := y >> 1;
      n := n - 1;
    }
    MulZero(x, n);
    XorLaws(result, 0);
  }
}

/** Octets, their little-endian reading, and the shifts and masks of unsigned words. */
module Bytes {
  import opened ModArith
  import opened SignedBits

  type byte = x: int | 0 <= x < 256

  function LittleEndian(s: seq<byte>): nat {
    if s == [] then 0 else s[0] + 256 * LittleEndian(s[1..])
  }

  /** Strings of one length are told apart by the numbers they encode. */
  lemma {:induction false} Injective(a: seq<byte>, b: seq<byte>)
    requires |a| == |b| && LittleEndian(a) == LittleEndian(b)
    ensures a == b
  {
    if a != [] {
      assert a[0] == LittleEndian(a) % 256 && b[0] == LittleEndian(b) % 256;
      Injective(a[1..], b[1..]);
      assert a == [a[0]] + a[1..] && b == [b[0]] + b[1..];
    }
  }

  lemma FourBytes(s: seq<byte>)
    requires |s| >= 4
    ensures LittleEndian(s) == s[0] + 0x100 * s[1] + 0x10000 * s[2] + 0x1000000 * s[3]
      + 0x100000000 * LittleEndian(s[4..])
  {
    assert s[1..][1..] == s[2..] && s[2..][1..] == s[3..] && s[3..][1..] == s[4..];
    assert LittleEndian(s[1..]) == s[1] + 256 * LittleEndian(s[2..]);
    assert LittleEndian(s[2..]) == s[2] + 256 * LittleEndian(s[3..]);
    assert LittleEndian(s[3..]) == s[3] + 256 * LittleEndian(s[4..]);
  }

  function Radix(n: nat): nat {
    if n == 0 then 1 else 256 * Radix(n - 1)
  }

  lemma {:induction false} Concat(a: seq<byte>, b: seq<byte>)
    ensures LittleEndian(a + b) == LittleEndian(a) + Radix(|a|) * LittleEndian(b)
  {
    if a == [] {
      assert a + b == b;
    } else {
      assert (a + b)[1..] == a[1..] + b;
      Concat(a[1..], b);
      calc {
        LittleEndian(a + b);
        a[0] + 256 * (LittleEndian(a[1..]) + Radix(|a| - 1) * LittleEndian(b));
        a[0] + 256 * LittleEndian(a[1..]) + (256 * Radix(|a| - 1)) * LittleEndian(b);
      }
    }
  }

  lemma Concat16(a: seq<byte>, b: seq<byte>)
    requires |a| == 16
    ensures LittleEndian(a + b) == LittleEndian(a) + 0x100000000000000000000000000000000 * LittleEndian(b)
  {
    Concat(a, b);
    assert Radix(4) == 0x100000000;
    assert Radix(8) == 0x10000000000000000;
    assert Radix(12) == 0x1000000000000000000000000;
    assert Radix(16) == 0x100000000000000000000000000000000;
  }

  lemma {:induction false} ZeroBytes(s: seq<byte>)
    requires forall i :: 0 <= i < |s| ==> s[i] == 0
    ensures LittleEndian(s) == 0
  {
    if s != [] {
      ZeroBytes(s[1..]);
    }
  }

  lemma ZeroTail(a: seq<byte>, z: seq<byte>)
    requires forall i :: 0 <= i < |z| ==> z[i] == 0
    ensures LittleEndian(a + z) == LittleEndian(a)
  {
    Concat(a, z);
    ZeroBytes(z);
  }

  // ---- Machine words ----

  type u32 = x: int | 0 <= x < 0x1_0000_0000
  type u64 = x: int | 0 <= x < 0x1_0000_0000_0000_0000

  /** The cast `as u8`. */
  function Octet(x: int): byte {
    x % 0x100
  }

  /** The shift `>>`, by d = 2^k. */
  function Shr(x: int, d: int): int
    requires d > 0
  {
    x / d
  }

  /** The mask `&` with d - 1, for d = 2^k. */
  function Low(x: int, d: int): int
    requires d > 0
  {
    x % d
  }

  lemma Halves(x: int, d: int)
    requires d > 0
    ensures x == Low(x, d) + d * Shr(x, d)
  {
  }

  /** A field of w = m d values shared by two words: the top of one below the bottom of the next. */
  lemma SharedField(g: int, c: int, h: int, m: int, d: int, w: int)
    requires 0 < c && 0 <= g < c * m && 0 < d && m * d == w && 0 < w
    ensures Low(Shr(g, c) + h * m, w) == Shr(g, c) + m * Low(h, d)
  {
    var top, q, r := g / c, h / d, h % d;
    assert 0 <= top < m by {
      assert c * top <= g;
      assert top >= m ==> c * top >= c * m;
    }
    calc {
      top + h * m;
      top + (d * q + r) * m;
      (m * d) * q + (top + m * r);
    }
    assert m * r <= m * (d - 1);
    assert m * (d - 1) == m * d - m;
    DivUnique(top + h * m, w, q, top + m * r);
  }

  /** The same with the two parts joined by `|`; m = 2^k. */
  lemma JoinedField(g: int, c: int, h: int, m: int, d: int, w: int, k: nat)
    requires 0 < c && 0 <= g < c * m && 0 < d && m * d == w && 0 < w && m == Two(k)
    ensures Low(Or(Shr(g, c), h * m), w) == Shr(g, c) + m * Low(h, d)
  {
    hide Or, Two;
    var top := g / c;
    assert 0 <= top < m by {
      assert c * top <= g;
      assert top >= m ==> c * top >= c * m;
    }
    OrIsSum(Shr(g, c), h, m, k);
    SharedField(g, c, h, m, d, w);
  }

  /** Four adjacent bytes, little-endian. */
  function Load4(x0: int, x1: int, x2: int, x3: int): int {
    x0 + 0x100 * x1 + 0x10000 * x2 + 0x1000000 * x3
  }

  // ---- Buffers ----

  /** a[at..at + n].copy_from_slice(chunk). */
  method CopyInto(a: array<byte>, at: nat, chunk: seq<byte>)
    requires at + |chunk| <= a.Length
    modifies a
    ensures a[..at] == old(a[..at]) && a[at..at + |chunk|] == chunk
    ensures a[..at + |chunk|] == old(a[..at]) + chunk
  {
    forall i | 0 <= i < |chunk| {
      a[at + i] := chunk[i];
    }
  }
}

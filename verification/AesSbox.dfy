/** The AES S-box: the tables and the branch-free computation are the same function. */
module AesSbox {
  import opened AesTables
  import opened Gf256

  lemma EntryIs(x: bv8)
    ensures Entry(x, Sbox(x)) && Entry(InvSbox(x), x)
  {
    hide Entry, Row, InvRow, At;
    AtIs(x);
    RowEntries(x as nat / 16, x as nat % 16);
    InvRowEntries(x as nat / 16, x as nat % 16);
  }

  lemma AffineInverse(s: bv8)
    ensures Affine(InvAffine(s)) == s
  {
  }

  /** An entry is the inverse, through the affine map; and each entry belongs to one byte. */
  lemma EntryInverse(x: bv8, s: bv8)
    requires Entry(x, s)
    ensures Inverse(x) == InvAffine(s) && Inverse(InvAffine(s)) == x
  {
    hide MulCt, Mul, InvAffine, Inverse;
    var y := InvAffine(s);
    if x == 0 {
      InverseOfZero();
    } else {
      MulCtIsMul(x, y);
      MulCommutes(x, y);
      InverseIs(x, y);
      InverseIs(y, x);
    }
  }

  // ---- The branch-free S-box of the code ----

  function InverseCt(x: bv8): bv8 {
    var x2 := MulCt(x, x);
    var x4 := MulCt(x2, x2);
    var x8 := MulCt(x4, x4);
    var x16 := MulCt(x8, x8);
    var x32 := MulCt(x16, x16);
    var x64 := MulCt(x32, x32);
    var x128 := MulCt(x64, x64);
    MulCt(MulCt(MulCt(MulCt(MulCt(MulCt(x2, x4), x8), x16), x32), x64), x128)
  }

  lemma InverseCtIs(x: bv8)
    ensures InverseCt(x) == Inverse(x)
  {
    hide MulCt, Mul;
    forall a, b ensures MulCt(a, b) == Mul(a, b) {
      MulCtIsMul(a, b);
    }
  }

  function SboxCt(x: bv8): bv8 {
    Affine(InverseCt(x))
  }

  function InvSboxCt(s: bv8): bv8 {
    InverseCt(InvAffine(s))
  }

  /** The tables are inverse to each other, and the branch-free forms compute exactly the tables. */
  lemma SboxTheorem(x: bv8)
    ensures InvSbox(Sbox(x)) == x && Sbox(InvSbox(x)) == x
    ensures SboxCt(x) == Sbox(x) && InvSboxCt(x) == InvSbox(x)
  {
    hide Entry, Sbox, InvSbox, Affine, InvAffine, Inverse, InverseCt;
    InverseCtIs(x);
    InverseCtIs(InvAffine(x));
    EntryIs(x);
    EntryIs(Sbox(x));
    EntryIs(InvSbox(x));
    EntryInverse(x, Sbox(x));
    AffineInverse(Sbox(x));
    EntryInverse(InvSbox(Sbox(x)), Sbox(x));
    EntryInverse(InvSbox(x), x);
    EntryInverse(InvSbox(x), Sbox(InvSbox(x)));
    AffineInverse(x);
    AffineInverse(Sbox(InvSbox(x)));
  }
}

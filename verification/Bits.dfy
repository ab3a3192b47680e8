/** The bits of an unsigned int, numbered from 1 as in `%b` tables. */
module Bits {

  const WORD_BITS: nat := 32

  /** `1 << (i - 1)` */
  function Bit(i: nat): (b: nat)
    requires i >= 1
    ensures b > 0
  {
    if i == 1 then 1 else 2 * Bit(i - 1)
  }

  /** `(v & (1 << (i - 1))) != 0` */
  predicate Has(v: nat, i: nat)
    requires i >= 1
  {
    (v / Bit(i)) % 2 == 1
  }

  /** `v | (1 << (i - 1))` */
  function With(v: nat, i: nat): nat
    requires i >= 1
  {
    if Has(v, i) then v else v + Bit(i)
  }

  lemma AtLeastOnce(k: nat, d: nat)
    requires k >= 1
    ensures k * d >= d
  {
  }

  lemma Quotient(v: nat, d: nat, q: nat, r: nat)
    requires v == q * d + r && r < d
    ensures v / d == q
  {
    var e := v / d;
    assert v == e * d + v % d && (q - e) * d == q * d - e * d && (e - q) * d == e * d - q * d;
    if q > e {
      AtLeastOnce(q - e, d);
    } else if e > q {
      AtLeastOnce(e - q, d);
    }
  }

  /** Dropping the lowest bit. */
  lemma Halved(v: nat, i: nat)
    requires i > 1
    ensures Has(v, i) <==> Has(v / 2, i - 1)
  {
    var p := Bit(i - 1);
    var q, r := (v / 2) / p, (v / 2) % p;
    assert v / 2 == q * p + r;
    assert v == q * (2 * p) + (2 * r + v % 2);
    Quotient(v, 2 * p, q, 2 * r + v % 2);
  }

  lemma LowestBit(v: nat)
    ensures Has(v, 1) <==> v % 2 == 1
  {
  }

  lemma WithHalved(v: nat, i: nat)
    requires i > 1
    ensures With(v, i) / 2 == With(v / 2, i - 1) && With(v, i) % 2 == v % 2
  {
    Halved(v, i);
    hide Has;
  }

  lemma WithLowest(v: nat)
    ensures With(v, 1) / 2 == v / 2 && With(v, 1) % 2 == 1
  {
    LowestBit(v);
    hide Has;
  }

  /** Setting a bit sets that bit and no other. */
  lemma {:induction false} WithBits(v: nat, i: nat, j: nat)
    requires i >= 1 && j >= 1
    ensures Has(With(v, i), j) <==> j == i || Has(v, j)
  {
    if i == 1 {
      WithLowest(v);
    } else {
      WithHalved(v, i);
    }
    LowestBit(v);
    LowestBit(With(v, i));
    if j > 1 {
      Halved(v, j);
      Halved(With(v, i), j);
      if i > 1 {
        WithBits(v / 2, i - 1, j - 1);
      }
    }
  }

  lemma NoBits(j: nat)
    requires j >= 1
    ensures !Has(0, j)
  {
    Quotient(0, Bit(j), 0, 0);
  }

  /** The number that is just that bit. */
  lemma SingleBit(i: nat, j: nat)
    requires i >= 1 && j >= 1
    ensures Has(Bit(i), j) <==> j == i
  {
    NoBits(i);
    NoBits(j);
    WithBits(0, i, j);
  }

  lemma {:induction false} WithBound(v: nat, i: nat, n: nat)
    requires 1 <= i <= n && v < Bit(n + 1)
    ensures With(v, i) < Bit(n + 1)
  {
    if i == 1 {
      WithLowest(v);
    } else {
      WithHalved(v, i);
      WithBound(v / 2, i - 1, n - 1);
    }
  }

  /** A number is known by its bits. */
  lemma {:induction false} SameBits(a: nat, b: nat, n: nat)
    requires a < Bit(n + 1) && b < Bit(n + 1) && forall i | 1 <= i <= n :: Has(a, i) <==> Has(b, i)
    ensures a == b
  {
    if n > 0 {
      LowestBit(a);
      LowestBit(b);
      forall i | 1 <= i <= n - 1 ensures Has(a / 2, i) <==> Has(b / 2, i) {
        Halved(a, i + 1);
        Halved(b, i + 1);
      }
      assert Has(a, 1) <==> Has(b, 1);
      hide Has;
      SameBits(a / 2, b / 2, n - 1);
    }
  }

  /** The bits of a word are its powers of two, in order. */
  lemma BitValues()
    ensures Bit(1) == 1 && forall i | 1 <= i :: Bit(i + 1) == 2 * Bit(i)
    ensures Bit(32) == 0x8000_0000 && Bit(WORD_BITS + 1) == 0x1_0000_0000
  {
    assert Bit(9) == 0x100;
    assert Bit(17) == 0x1_0000;
    assert Bit(25) == 0x100_0000;
  }
}

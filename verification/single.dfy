/** What the four bytes of a float mean: IEEE 754 singles as real numbers. */
module Singles {
  import opened Wire

  /** The eight bits of a signed char. */
  function Octet(b: int): (u: nat)
    ensures u < 0x100 && -128 <= b < 128 ==> u == if b < 0 then b + 0x100 else b
  {
    b % 0x100
  }

  /** The number that four octets make, the first the most significant one. */
  function Word(a: int, b: int, c: int, d: int): (bits: nat)
    ensures bits < 0x1_0000_0000
  {
    0x100_0000 * Octet(a) + 0x1_0000 * Octet(b) + 0x100 * Octet(c) + Octet(d)
  }

  /** The 32 bits of a float, whose bytes are in host (little-endian) order. */
  function Bits(f: Single): nat
  {
    Word(f.b3, f.b2, f.b1, f.b0)
  }

  function Exponent(f: Single): nat
  {
    Bits(f) / 0x80_0000 % 0x100
  }

  function Fraction(f: Single): (m: nat)
    ensures m < 0x80_0000
  {
    Bits(f) % 0x80_0000
  }

  predicate IsNaN(f: Single)
  {
    Exponent(f) == 0xFF && Fraction(f) != 0
  }

  /** Two to the e. */
  function Power(e: int): (x: real)
    ensures x > 0.0
    decreases if e < 0 then -e else e
  {
    if e == 0 then 1.0 else if e > 0 then 2.0 * Power(e - 1) else Power(e + 1) / 2.0
  }

  /** The absolute value; the infinities count as two to the 128. */
  function Magnitude(f: Single): real
  {
    if Exponent(f) == 0 then Fraction(f) as real / 8388608.0 * Power(-126)
    else (1.0 + Fraction(f) as real / 8388608.0) * Power(Exponent(f) - 127)
  }

  /** The number that a float stands for, if it is not a NaN. */
  function Worth(f: Single): real
  {
    if Bits(f) >= 0x8000_0000 then -Magnitude(f) else Magnitude(f)
  }

  /** The comparison of the death test on the bytes is the comparison of the numbers, and false for a NaN. */
  lemma {:induction false} NonPositiveIff(f: Single)
    ensures NonPositive(FloatValue(f)) <==> !IsNaN(f) && Worth(f) <= 0.0
  {
    BytesOfBits(f);
    MagnitudeSign(f);
    hide Power, Bits, Exponent, Fraction, Magnitude;
  }

  lemma MagnitudeSign(f: Single)
    ensures Magnitude(f) >= 0.0
    ensures Magnitude(f) > 0.0 <==> Exponent(f) != 0 || Fraction(f) != 0
  {
    hide Exponent, Fraction, Power;
    var m := Fraction(f) as real / 8388608.0;
    if Exponent(f) == 0 {
      ProductSign(m, Power(-126));
      assert m > 0.0 <==> Fraction(f) != 0;
      assert Magnitude(f) == m * Power(-126);
    } else {
      ProductSign(1.0 + m, Power(Exponent(f) - 127));
    }
  }

  lemma ProductSign(x: real, y: real)
    requires x >= 0.0 && y > 0.0
    ensures x * y >= 0.0 && (x * y > 0.0 <==> x > 0.0)
  {
  }

  /** Sign, exponent and fraction, byte by byte. */
  lemma BytesOfBits(f: Single)
    ensures Bits(f) >= 0x8000_0000 <==> f.b3 < 0
    ensures Exponent(f) == Unsigned(f.b3) % 128 * 2 + Unsigned(f.b2) / 128
    ensures Fraction(f) == Unsigned(f.b2) % 128 * 65536 + Unsigned(f.b1) * 256 + Unsigned(f.b0)
  {
    var u3, u2 := Unsigned(f.b3), Unsigned(f.b2);
    var low := u2 % 128 * 65536 + Unsigned(f.b1) * 256 + Unsigned(f.b0);
    assert Bits(f) == 0x80_0000 * (2 * u3 + u2 / 128) + low;
    Divided(Bits(f), 2 * u3 + u2 / 128, low);
    LowBits(u3, u2 / 128);
  }

  lemma Divided(n: nat, q: nat, r: nat)
    requires n == 0x80_0000 * q + r && r < 0x80_0000
    ensures n / 0x80_0000 == q && n % 0x80_0000 == r
  {
  }

  lemma LowBits(u: nat, b: nat)
    requires u < 256 && b < 2
    ensures (2 * u + b) % 256 == u % 128 * 2 + b
  {
  }

  /** A float is received with its most significant byte first, and sent with its least significant byte first. */
  lemma FloatOrder(p: Packet, i: nat, f: Single)
    ensures Bits(ReadSingle(p, i)) == Word(p.At(i), p.At(i + 1), p.At(i + 2), p.At(i + 3))
    ensures var e := EmitValue(FloatValue(f)); |e| == 4 && Bits(f) == Word(e[3], e[2], e[1], e[0])
  {
  }

  /** The three numbers that players start with and are revived with. */
  lemma Numbers()
    ensures Worth(Single(0, 0, 0, 0)) == 0.0
    ensures Worth(Single(0, 0, -128, 63)) == 1.0
    ensures Worth(Single(0, 0, 32, 65)) == 10.0
  {
    hide Worth;
    Zero();
    One();
    Ten();
  }

  lemma Zero()
    ensures Worth(Single(0, 0, 0, 0)) == 0.0
  {
    hide Power, Exponent, Fraction, Bits;
    BytesOfBits(Single(0, 0, 0, 0));
  }

  lemma One()
    ensures Worth(Single(0, 0, -128, 63)) == 1.0
  {
    hide Power, Exponent, Fraction, Bits;
    BytesOfBits(Single(0, 0, -128, 63));
    Powers();
  }

  lemma Ten()
    ensures Worth(Single(0, 0, 32, 65)) == 10.0
  {
    hide Power, Exponent, Fraction, Bits;
    var ten := Single(0, 0, 32, 65);
    BytesOfBits(ten);
    Powers();
    assert Fraction(ten) == 0x20_0000 && Fraction(ten) as real / 8388608.0 == 0.25;
    assert Power(Exponent(ten) - 127) == 8.0;
  }

  lemma Powers()
    ensures Power(0) == 1.0 && Power(3) == 8.0
  {
    assert Power(1) == 2.0 && Power(2) == 4.0;
  }
}

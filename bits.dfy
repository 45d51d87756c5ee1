/**
 * The relation between an integer and the eight data lines db7..db0.
 * The driver sets each data line to the truthiness of `value & mask`,
 * with one single-bit mask per line; these definitions make that exact.
 */
module Bits {

  /** 2 to the power `k`: the single-bit mask of bit `k`. */
  function Pow2(k: nat): nat
  {
    if k == 0 then 1 else 2 * Pow2(k - 1)
  }

  /** Bit `k` of `x`, counting from the least significant bit. */
  predicate BitAt(x: nat, k: nat)
  {
    if k == 0 then x % 2 == 1 else BitAt(x / 2, k - 1)
  }

  /** Bitwise AND of two non-negative integers (Python's `&` on ints >= 0). */
  function And(a: nat, b: nat): (r: nat)
    ensures r <= a && r <= b
  {
    if a == 0 || b == 0 then 0
    else 2 * And(a / 2, b / 2) + (if a % 2 == 1 && b % 2 == 1 then 1 else 0)
  }

  /** The boolean a data line takes when assigned `x & mask` (non-zero is high). */
  predicate Masked(x: nat, mask: nat)
  {
    And(x, mask) != 0
  }

  /** The value carried by the data lines, db7 being the most significant bit. */
  function WordOf(db7: bool, db6: bool, db5: bool, db4: bool,
                  db3: bool, db2: bool, db1: bool, db0: bool): (w: nat)
    ensures w < 256
    ensures w >= 128 <==> db7
  {
    128 * Digit(db7) + 64 * Digit(db6) + 32 * Digit(db5) + 16 * Digit(db4) +
    8 * Digit(db3) + 4 * Digit(db2) + 2 * Digit(db1) + Digit(db0)
  }

  /** The value a line contributes to its bit position. */
  function Digit(b: bool): (d: nat)
    ensures d < 2 && (d == 1 <==> b)
  {
    if b then 1 else 0
  }

  /** A single-bit mask selects exactly bit `k`. */
  lemma {:induction false} MaskedPow2(x: nat, k: nat)
    ensures Masked(x, Pow2(k)) <==> BitAt(x, k)
  {
    if k == 0 {
      if x != 0 {
        assert And(x, 1) == 2 * And(x / 2, 0) + (if x % 2 == 1 then 1 else 0);
      }
    } else {
      var p := Pow2(k);
      assert p == 2 * Pow2(k - 1);
      assert p / 2 == Pow2(k - 1) && p % 2 == 0;
      assert And(x, p) == 2 * And(x / 2, Pow2(k - 1));
      MaskedPow2(x / 2, k - 1);
      assert Masked(x / 2, Pow2(k - 1)) <==> BitAt(x / 2, k - 1);
      assert Masked(x, p) <==> Masked(x / 2, Pow2(k - 1));
      BitAtHalf(x, k);
    }
  }

  /** The eight masks the driver uses, as bits 7..0. */
  lemma DriverMasks(x: nat)
    ensures Masked(x, 0x80) == BitAt(x, 7) && Masked(x, 0x40) == BitAt(x, 6)
    ensures Masked(x, 0x20) == BitAt(x, 5) && Masked(x, 0x10) == BitAt(x, 4)
    ensures Masked(x, 0x08) == BitAt(x, 3) && Masked(x, 0x04) == BitAt(x, 2)
    ensures Masked(x, 0x02) == BitAt(x, 1) && Masked(x, 0x01) == BitAt(x, 0)
  {
    MaskedPow2(x, 7); MaskedPow2(x, 6); MaskedPow2(x, 5); MaskedPow2(x, 4);
    MaskedPow2(x, 3); MaskedPow2(x, 2); MaskedPow2(x, 1); MaskedPow2(x, 0);
  }

  /** Bit `k` of `x` is bit `k - 1` of `x / 2`. */
  lemma BitAtHalf(x: nat, k: nat)
    requires k > 0
    ensures BitAt(x, k) == BitAt(x / 2, k - 1)
  {
  }

  /** The bits of `x`, read by repeated halving. */
  lemma BitsByHalving(x: nat)
    ensures BitAt(x, 0) <==> x % 2 == 1
    ensures BitAt(x, 1) <==> x / 2 % 2 == 1
    ensures BitAt(x, 2) <==> x / 2 / 2 % 2 == 1
    ensures BitAt(x, 3) <==> x / 2 / 2 / 2 % 2 == 1
    ensures BitAt(x, 4) <==> x / 2 / 2 / 2 / 2 % 2 == 1
    ensures BitAt(x, 5) <==> x / 2 / 2 / 2 / 2 / 2 % 2 == 1
    ensures BitAt(x, 6) <==> x / 2 / 2 / 2 / 2 / 2 / 2 % 2 == 1
    ensures BitAt(x, 7) <==> x / 2 / 2 / 2 / 2 / 2 / 2 / 2 % 2 == 1
  {
    var x1 := x / 2; var x2 := x1 / 2; var x3 := x2 / 2; var x4 := x3 / 2;
    var x5 := x4 / 2; var x6 := x5 / 2;
    BitAtHalf(x, 1);
    BitAtHalf(x, 2); BitAtHalf(x1, 1);
    BitAtHalf(x, 3); BitAtHalf(x1, 2); BitAtHalf(x2, 1);
    BitAtHalf(x, 4); BitAtHalf(x1, 3); BitAtHalf(x2, 2); BitAtHalf(x3, 1);
    BitAtHalf(x, 5); BitAtHalf(x1, 4); BitAtHalf(x2, 3); BitAtHalf(x3, 2); BitAtHalf(x4, 1);
    BitAtHalf(x, 6); BitAtHalf(x1, 5); BitAtHalf(x2, 4); BitAtHalf(x3, 3); BitAtHalf(x4, 2);
    BitAtHalf(x5, 1);
    BitAtHalf(x, 7); BitAtHalf(x1, 6); BitAtHalf(x2, 5); BitAtHalf(x3, 4); BitAtHalf(x4, 3);
    BitAtHalf(x5, 2); BitAtHalf(x6, 1);
  }

  /** Eight halving steps that end in a single digit put the digits back together as a byte. */
  lemma Recombine(x: int, x1: int, x2: int, x3: int, x4: int, x5: int, x6: int, x7: int,
                  r0: int, r1: int, r2: int, r3: int, r4: int, r5: int, r6: int)
    requires x == 2 * x1 + r0 && x1 == 2 * x2 + r1 && x2 == 2 * x3 + r2 && x3 == 2 * x4 + r3
    requires x4 == 2 * x5 + r4 && x5 == 2 * x6 + r5 && x6 == 2 * x7 + r6
    ensures x == 128 * x7 + 64 * r6 + 32 * r5 + 16 * r4 + 8 * r3 + 4 * r2 + 2 * r1 + r0
  {
  }

  /** A byte is the weighted sum of the remainders of its repeated halvings. */
  lemma ByteByHalving(x: nat)
    requires x < 256
    ensures x == 128 * (x / 2 / 2 / 2 / 2 / 2 / 2 / 2 % 2) + 64 * (x / 2 / 2 / 2 / 2 / 2 / 2 % 2)
               + 32 * (x / 2 / 2 / 2 / 2 / 2 % 2) + 16 * (x / 2 / 2 / 2 / 2 % 2)
               + 8 * (x / 2 / 2 / 2 % 2) + 4 * (x / 2 / 2 % 2) + 2 * (x / 2 % 2) + x % 2
  {
    var x1 := x / 2; var x2 := x1 / 2; var x3 := x2 / 2; var x4 := x3 / 2;
    var x5 := x4 / 2; var x6 := x5 / 2; var x7 := x6 / 2;
    assert x7 < 2;
    assert x7 % 2 == x7;
    Recombine(x, x1, x2, x3, x4, x5, x6, x7, x % 2, x1 % 2, x2 % 2, x3 % 2, x4 % 2, x5 % 2, x6 % 2);
  }

  /** Eight digits that weigh up to `x` are the word of their bits. */
  lemma Assemble(x: int, b7: bool, b6: bool, b5: bool, b4: bool, b3: bool, b2: bool, b1: bool, b0: bool,
                 r7: int, r6: int, r5: int, r4: int, r3: int, r2: int, r1: int, r0: int)
    requires Digit(b7) == r7 && Digit(b6) == r6 && Digit(b5) == r5 && Digit(b4) == r4
    requires Digit(b3) == r3 && Digit(b2) == r2 && Digit(b1) == r1 && Digit(b0) == r0
    requires x == 128 * r7 + 64 * r6 + 32 * r5 + 16 * r4 + 8 * r3 + 4 * r2 + 2 * r1 + r0
    ensures x == WordOf(b7, b6, b5, b4, b3, b2, b1, b0)
  {
  }

  /** A remainder by two is the digit of the bit it stands for. */
  lemma DigitOfRemainder(b: bool, y: int)
    requires b <==> y % 2 == 1
    ensures Digit(b) == y % 2
  {
  }

  /** A byte is the word its own eight bits make up. */
  lemma ByteBits(x: nat)
    requires x < 256
    ensures x == WordOf(BitAt(x, 7), BitAt(x, 6), BitAt(x, 5), BitAt(x, 4),
                        BitAt(x, 3), BitAt(x, 2), BitAt(x, 1), BitAt(x, 0))
  {
    BitsByHalving(x);
    ByteByHalving(x);
    var x1 := x / 2; var x2 := x1 / 2; var x3 := x2 / 2; var x4 := x3 / 2;
    var x5 := x4 / 2; var x6 := x5 / 2; var x7 := x6 / 2;
    DigitOfRemainder(BitAt(x, 7), x7); DigitOfRemainder(BitAt(x, 6), x6);
    DigitOfRemainder(BitAt(x, 5), x5); DigitOfRemainder(BitAt(x, 4), x4);
    DigitOfRemainder(BitAt(x, 3), x3); DigitOfRemainder(BitAt(x, 2), x2);
    DigitOfRemainder(BitAt(x, 1), x1); DigitOfRemainder(BitAt(x, 0), x);
    Assemble(x, BitAt(x, 7), BitAt(x, 6), BitAt(x, 5), BitAt(x, 4), BitAt(x, 3), BitAt(x, 2), BitAt(x, 1), BitAt(x, 0),
             x7 % 2, x6 % 2, x5 % 2, x4 % 2, x3 % 2, x2 % 2, x1 % 2, x % 2);
  }

  /** Setting each line from its mask and reading the lines back gives the value again. */
  lemma MaskedLinesRoundTrip(x: nat)
    requires x < 256
    ensures WordOf(Masked(x, 0x80), Masked(x, 0x40), Masked(x, 0x20), Masked(x, 0x10),
                   Masked(x, 0x08), Masked(x, 0x04), Masked(x, 0x02), Masked(x, 0x01)) == x
  {
    DriverMasks(x);
    ByteBits(x);
  }

  /** The lines a seven-bit address leaves on the bus, with db7 raised, read back as 0x80 plus that address. */
  lemma AddressLinesRoundTrip(x: nat)
    requires x < 128
    ensures WordOf(true, Masked(x, 0x40), Masked(x, 0x20), Masked(x, 0x10),
                   Masked(x, 0x08), Masked(x, 0x04), Masked(x, 0x02), Masked(x, 0x01)) == 0x80 + x
  {
    MaskedLinesRoundTrip(x);
  }

  /** Halving a sum of weighted binary digits shifts out one digit at a time. */
  lemma Halving(b7: nat, b6: nat, b5: nat, b4: nat, b3: nat, b2: nat, b1: nat, b0: nat)
    requires b7 < 2 && b6 < 2 && b5 < 2 && b4 < 2 && b3 < 2 && b2 < 2 && b1 < 2 && b0 < 2
    ensures var w := 128 * b7 + 64 * b6 + 32 * b5 + 16 * b4 + 8 * b3 + 4 * b2 + 2 * b1 + b0;
        && w % 2 == b0 && w / 2 % 2 == b1
        && w / 2 / 2 % 2 == b2 && w / 2 / 2 / 2 % 2 == b3
        && w / 2 / 2 / 2 / 2 % 2 == b4 && w / 2 / 2 / 2 / 2 / 2 % 2 == b5
        && w / 2 / 2 / 2 / 2 / 2 / 2 % 2 == b6 && w / 2 / 2 / 2 / 2 / 2 / 2 / 2 % 2 == b7
  {
      var w := 128 * b7 + 64 * b6 + 32 * b5 + 16 * b4 + 8 * b3 + 4 * b2 + 2 * b1 + b0;
      var y7 := b7;
      var y6 := 2 * y7 + b6;
      var y5 := 2 * y6 + b5;
      var y4 := 2 * y5 + b4;
      var y3 := 2 * y4 + b3;
      var y2 := 2 * y3 + b2;
      var y1 := 2 * y2 + b1;
      assert w == 2 * y1 + b0;
      assert w % 2 == b0 && w / 2 == y1;
      assert y1 % 2 == b1 && y1 / 2 == y2;
      assert y2 % 2 == b2 && y2 / 2 == y3;
      assert y3 % 2 == b3 && y3 / 2 == y4;
      assert y4 % 2 == b4 && y4 / 2 == y5;
      assert y5 % 2 == b5 && y5 / 2 == y6;
      assert y6 % 2 == b6 && y6 / 2 == y7;
  }

  /** Halving the word of the lines shifts out one line at a time, db0 first. */
  lemma WordOfByHalving(db7: bool, db6: bool, db5: bool, db4: bool,
                        db3: bool, db2: bool, db1: bool, db0: bool)
    ensures var w := WordOf(db7, db6, db5, db4, db3, db2, db1, db0);
      && w % 2 == Digit(db0) && w / 2 % 2 == Digit(db1)
      && w / 2 / 2 % 2 == Digit(db2) && w / 2 / 2 / 2 % 2 == Digit(db3)
      && w / 2 / 2 / 2 / 2 % 2 == Digit(db4) && w / 2 / 2 / 2 / 2 / 2 % 2 == Digit(db5)
      && w / 2 / 2 / 2 / 2 / 2 / 2 % 2 == Digit(db6) && w / 2 / 2 / 2 / 2 / 2 / 2 / 2 % 2 == Digit(db7)
  {
    Halving(Digit(db7), Digit(db6), Digit(db5), Digit(db4), Digit(db3), Digit(db2), Digit(db1), Digit(db0));
  }

  /** Reading the lines as a word and masking it gives back each line. */
  lemma WordOfMasked(db7: bool, db6: bool, db5: bool, db4: bool,
                     db3: bool, db2: bool, db1: bool, db0: bool)
    ensures var w := WordOf(db7, db6, db5, db4, db3, db2, db1, db0);
      && Masked(w, 0x80) == db7 && Masked(w, 0x40) == db6
      && Masked(w, 0x20) == db5 && Masked(w, 0x10) == db4
      && Masked(w, 0x08) == db3 && Masked(w, 0x04) == db2
      && Masked(w, 0x02) == db1 && Masked(w, 0x01) == db0
  {
    var w := WordOf(db7, db6, db5, db4, db3, db2, db1, db0);
    WordOfByHalving(db7, db6, db5, db4, db3, db2, db1, db0);
    BitsByHalving(w);
    DriverMasks(w);
  }
}

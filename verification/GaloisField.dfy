/**
 The field GF(2^8) of section 4.2 of FIPS 197, and the multiplication table that the
 MixColumns steps read.  Multiplication is defined from the standard alone; the table is
 then shown to agree with it at every entry.
 */
module GaloisField {
  import opened Bytes

  /** Multiplication by x, that is {02}, modulo x^8 + x^4 + x^3 + x + 1. */
  function XTime(a: byte): byte {
    (a << 1) ^ (if a & 0x80 != 0 then 0x1b else 0)
  }

  /** Multiplication by x^k. */
  function XPow(a: byte, k: nat): byte {
    if k == 0 then a else XTime(XPow(a, k - 1))
  }

  /** The coefficient of x^k in the polynomial b. */
  predicate Coefficient(b: byte, k: nat)
    requires k < 8
  {
    match k
    case 0 => b & 0x01 != 0
    case 1 => b & 0x02 != 0
    case 2 => b & 0x04 != 0
    case 3 => b & 0x08 != 0
    case 4 => b & 0x10 != 0
    case 5 => b & 0x20 != 0
    case 6 => b & 0x40 != 0
    case _ => b & 0x80 != 0
  }

  /** a times the lowest k terms of b. */
  function PartialMul(a: byte, b: byte, k: nat): byte
    requires k <= 8
  {
    if k == 0 then 0
    else if Coefficient(b, k - 1) then Add(PartialMul(a, b, k - 1), XPow(a, k - 1))
    else PartialMul(a, b, k - 1)
  }

  /** The product of a and b in GF(2^8), section 4.2 of FIPS 197. */
  function Mul(a: byte, b: byte): byte {
    PartialMul(a, b, 8)
  }

  // ---------- Addition ----------

  lemma AddCommutes(a: byte, b: byte)
    ensures Add(a, b) == Add(b, a)
  {
  }

  lemma AddSelf(a: byte)
    ensures Add(a, a) == 0
    ensures Add(a, 0) == a
    ensures Add(0, a) == a
  {
  }

  lemma AddAssociates(a: byte, b: byte, c: byte)
    ensures Add(Add(a, b), c) == Add(a, Add(b, c))
  {
  }

  lemma AddExchange(a: byte, b: byte, c: byte, d: byte)
    ensures Add(Add(a, b), Add(c, d)) == Add(Add(a, c), Add(b, d))
  {
    hide Add;
    AddAssociates(a, b, Add(c, d));
    AddAssociates(b, c, d);
    AddCommutes(b, c);
    AddAssociates(c, b, d);
    AddAssociates(a, c, Add(b, d));
  }

  // ---------- Multiplication is linear ----------

  lemma ShiftLinear(x: byte, y: byte)
    ensures Add(x, y) << 1 == Add(x << 1, y << 1)
  {
  }

  lemma HighBitLinear(x: byte, y: byte)
    ensures (Add(x, y) & 0x80 != 0) == ((x & 0x80 != 0) != (y & 0x80 != 0))
  {
  }

  lemma XTimeLinear(x: byte, y: byte)
    ensures XTime(Add(x, y)) == Add(XTime(x), XTime(y))
  {
    var p: byte := if x & 0x80 != 0 then 0x1b else 0;
    var q: byte := if y & 0x80 != 0 then 0x1b else 0;
    ShiftLinear(x, y);
    HighBitLinear(x, y);
    AddExchange(x << 1, y << 1, p, q);
  }

  lemma {:induction false} XPowLinear(x: byte, y: byte, k: nat)
    ensures XPow(Add(x, y), k) == Add(XPow(x, k), XPow(y, k))
  {
    hide XTime, Add;
    if k > 0 {
      XPowLinear(x, y, k - 1);
      XTimeLinear(XPow(x, k - 1), XPow(y, k - 1));
    }
  }

  lemma {:induction false} PartialMulLinear(x: byte, y: byte, b: byte, k: nat)
    requires k <= 8
    ensures PartialMul(Add(x, y), b, k) == Add(PartialMul(x, b, k), PartialMul(y, b, k))
  {
    hide XPow, Coefficient, Add;
    if k == 0 {
      AddSelf(0);
    } else {
      XPowLinear(x, y, k - 1);
      PartialMulLinear(x, y, b, k - 1);
      AddExchange(PartialMul(x, b, k - 1), PartialMul(y, b, k - 1), XPow(x, k - 1), XPow(y, k - 1));
    }
  }

  lemma MulLinear(x: byte, y: byte, b: byte)
    ensures Mul(Add(x, y), b) == Add(Mul(x, b), Mul(y, b))
  {
    hide Add;
    PartialMulLinear(x, y, b, 8);
  }

  // ---------- Products with the constants of MixColumns ----------

  lemma PartialMulStep(x: byte, b: byte, k: nat)
    requires k < 8
    ensures PartialMul(x, b, k + 1) ==
            if Coefficient(b, k) then Add(PartialMul(x, b, k), XPow(x, k)) else PartialMul(x, b, k)
  {
  }

  /** What the powers of x used by a product are. */
  lemma Powers(x: byte)
    ensures XPow(x, 0) == x
    ensures forall k :: 0 <= k < 7 ==> XPow(x, k + 1) == XTime(XPow(x, k))
  {
  }

  /** The product of x and b with the recursion written out. */
  function ByteProduct(x: byte, b: byte): byte {
    var x1 := XTime(x);
    var x2 := XTime(x1);
    var x3 := XTime(x2);
    var x4 := XTime(x3);
    var x5 := XTime(x4);
    var x6 := XTime(x5);
    var x7 := XTime(x6);
    var s0 := if b & 0x01 != 0 then x else 0;
    var s1 := if b & 0x02 != 0 then Add(s0, x1) else s0;
    var s2 := if b & 0x04 != 0 then Add(s1, x2) else s1;
    var s3 := if b & 0x08 != 0 then Add(s2, x3) else s2;
    var s4 := if b & 0x10 != 0 then Add(s3, x4) else s3;
    var s5 := if b & 0x20 != 0 then Add(s4, x5) else s4;
    var s6 := if b & 0x40 != 0 then Add(s5, x6) else s5;
    if b & 0x80 != 0 then Add(s6, x7) else s6
  }

  lemma MulIsByteProduct(x: byte, b: byte)
    ensures Mul(x, b) == ByteProduct(x, b)
  {
    hide XTime, XPow, Add;
    Powers(x);
    AddSelf(x);
    PartialMulStep(x, b, 0);
    PartialMulStep(x, b, 1);
    PartialMulStep(x, b, 2);
    PartialMulStep(x, b, 3);
    PartialMulStep(x, b, 4);
    PartialMulStep(x, b, 5);
    PartialMulStep(x, b, 6);
    PartialMulStep(x, b, 7);
  }

  lemma MulByOne(x: byte)
    ensures Mul(x, 1) == x
    ensures Mul(1, x) == x
  {
    hide Mul;
    MulIsByteProduct(x, 1);
    MulIsByteProduct(1, x);
  }

  // ---------- Products commute under a common factor ----------

  lemma {:induction false} XPowShift(a: byte, k: nat)
    ensures XPow(XTime(a), k) == XTime(XPow(a, k))
  {
    hide XTime;
    if k > 0 {
      XPowShift(a, k - 1);
    }
  }

  lemma {:induction false} XTimePartialMul(a: byte, b: byte, k: nat)
    requires k <= 8
    ensures XTime(PartialMul(a, b, k)) == PartialMul(XTime(a), b, k)
  {
    hide XPow, Add, Coefficient;
    if k > 0 {
      XTimePartialMul(a, b, k - 1);
      XPowShift(a, k - 1);
      XTimeLinear(PartialMul(a, b, k - 1), XPow(a, k - 1));
    }
  }

  lemma {:induction false} XPowMul(a: byte, b: byte, k: nat)
    ensures XPow(Mul(a, b), k) == Mul(XPow(a, k), b)
  {
    hide XTime;
    if k > 0 {
      XPowMul(a, b, k - 1);
      XTimePartialMul(XPow(a, k - 1), b, 8);
    }
  }

  lemma MulZero(b: byte)
    ensures Mul(0, b) == 0
  {
    hide Mul;
    MulIsByteProduct(0, b);
  }

  lemma {:induction false} PartialMulExchange(a: byte, b: byte, c: byte, k: nat)
    requires k <= 8
    ensures PartialMul(Mul(a, b), c, k) == Mul(PartialMul(a, c, k), b)
  {
    hide XPow, Add, Coefficient, Mul;
    if k == 0 {
      MulZero(b);
    } else {
      PartialMulExchange(a, b, c, k - 1);
      XPowMul(a, b, k - 1);
      MulLinear(PartialMul(a, c, k - 1), XPow(a, k - 1), b);
    }
  }

  lemma MulExchange(a: byte, b: byte, c: byte)
    ensures Mul(Mul(a, b), c) == Mul(Mul(a, c), b)
  {
    hide PartialMul;
    PartialMulExchange(a, b, c, 8);
  }

  lemma MulCommutes(a: byte, b: byte)
    ensures Mul(a, b) == Mul(b, a)
  {
    hide Mul;
    MulExchange(1, a, b);
    MulByOne(a);
    MulByOne(b);
  }

  lemma MulAssociates(a: byte, b: byte, c: byte)
    ensures Mul(Mul(a, b), c) == Mul(a, Mul(b, c))
  {
    hide Mul;
    MulCommutes(a, b);
    MulExchange(b, a, c);
    MulCommutes(Mul(b, c), a);
  }

  // ---------- The table ----------

  /** Column 0 of gf_mul, by the nibbles of the row index. */
  function Times02(high: byte, low: byte): byte {
    match high
    case 0x0 => (
      match low
      case 0x0 => 0x00 case 0x1 => 0x02 case 0x2 => 0x04 case 0x3 => 0x06 case 0x4 => 0x08 case 0x5 => 0x0a case 0x6 => 0x0c case 0x7 => 0x0e
      case 0x8 => 0x10 case 0x9 => 0x12 case 0xa => 0x14 case 0xb => 0x16 case 0xc => 0x18 case 0xd => 0x1a case 0xe => 0x1c case _ => 0x1e)
    case 0x1 => (
      match low
      case 0x0 => 0x20 case 0x1 => 0x22 case 0x2 => 0x24 case 0x3 => 0x26 case 0x4 => 0x28 case 0x5 => 0x2a case 0x6 => 0x2c case 0x7 => 0x2e
      case 0x8 => 0x30 case 0x9 => 0x32 case 0xa => 0x34 case 0xb => 0x36 case 0xc => 0x38 case 0xd => 0x3a case 0xe => 0x3c case _ => 0x3e)
    case 0x2 => (
      match low
      case 0x0 => 0x40 case 0x1 => 0x42 case 0x2 => 0x44 case 0x3 => 0x46 case 0x4 => 0x48 case 0x5 => 0x4a case 0x6 => 0x4c case 0x7 => 0x4e
      case 0x8 => 0x50 case 0x9 => 0x52 case 0xa => 0x54 case 0xb => 0x56 case 0xc => 0x58 case 0xd => 0x5a case 0xe => 0x5c case _ => 0x5e)
    case 0x3 => (
      match low
      case 0x0 => 0x60 case 0x1 => 0x62 case 0x2 => 0x64 case 0x3 => 0x66 case 0x4 => 0x68 case 0x5 => 0x6a case 0x6 => 0x6c case 0x7 => 0x6e
      case 0x8 => 0x70 case 0x9 => 0x72 case 0xa => 0x74 case 0xb => 0x76 case 0xc => 0x78 case 0xd => 0x7a case 0xe => 0x7c case _ => 0x7e)
    case 0x4 => (
      match low
      case 0x0 => 0x80 case 0x1 => 0x82 case 0x2 => 0x84 case 0x3 => 0x86 case 0x4 => 0x88 case 0x5 => 0x8a case 0x6 => 0x8c case 0x7 => 0x8e
      case 0x8 => 0x90 case 0x9 => 0x92 case 0xa => 0x94 case 0xb => 0x96 case 0xc => 0x98 case 0xd => 0x9a case 0xe => 0x9c case _ => 0x9e)
    case 0x5 => (
      match low
      case 0x0 => 0xa0 case 0x1 => 0xa2 case 0x2 => 0xa4 case 0x3 => 0xa6 case 0x4 => 0xa8 case 0x5 => 0xaa case 0x6 => 0xac case 0x7 => 0xae
      case 0x8 => 0xb0 case 0x9 => 0xb2 case 0xa => 0xb4 case 0xb => 0xb6 case 0xc => 0xb8 case 0xd => 0xba case 0xe => 0xbc case _ => 0xbe)
    case 0x6 => (
      match low
      case 0x0 => 0xc0 case 0x1 => 0xc2 case 0x2 => 0xc4 case 0x3 => 0xc6 case 0x4 => 0xc8 case 0x5 => 0xca case 0x6 => 0xcc case 0x7 => 0xce
      case 0x8 => 0xd0 case 0x9 => 0xd2 case 0xa => 0xd4 case 0xb => 0xd6 case 0xc => 0xd8 case 0xd => 0xda case 0xe => 0xdc case _ => 0xde)
    case 0x7 => (
      match low
      case 0x0 => 0xe0 case 0x1 => 0xe2 case 0x2 => 0xe4 case 0x3 => 0xe6 case 0x4 => 0xe8 case 0x5 => 0xea case 0x6 => 0xec case 0x7 => 0xee
      case 0x8 => 0xf0 case 0x9 => 0xf2 case 0xa => 0xf4 case 0xb => 0xf6 case 0xc => 0xf8 case 0xd => 0xfa case 0xe => 0xfc case _ => 0xfe)
    case 0x8 => (
      match low
      case 0x0 => 0x1b case 0x1 => 0x19 case 0x2 => 0x1f case 0x3 => 0x1d case 0x4 => 0x13 case 0x5 => 0x11 case 0x6 => 0x17 case 0x7 => 0x15
      case 0x8 => 0x0b case 0x9 => 0x09 case 0xa => 0x0f case 0xb => 0x0d case 0xc => 0x03 case 0xd => 0x01 case 0xe => 0x07 case _ => 0x05)
    case 0x9 => (
      match low
      case 0x0 => 0x3b case 0x1 => 0x39 case 0x2 => 0x3f case 0x3 => 0x3d case 0x4 => 0x33 case 0x5 => 0x31 case 0x6 => 0x37 case 0x7 => 0x35
      case 0x8 => 0x2b case 0x9 => 0x29 case 0xa => 0x2f case 0xb => 0x2d case 0xc => 0x23 case 0xd => 0x21 case 0xe => 0x27 case _ => 0x25)
    case 0xa => (
      match low
      case 0x0 => 0x5b case 0x1 => 0x59 case 0x2 => 0x5f case 0x3 => 0x5d case 0x4 => 0x53 case 0x5 => 0x51 case 0x6 => 0x57 case 0x7 => 0x55
      case 0x8 => 0x4b case 0x9 => 0x49 case 0xa => 0x4f case 0xb => 0x4d case 0xc => 0x43 case 0xd => 0x41 case 0xe => 0x47 case _ => 0x45)
    case 0xb => (
      match low
      case 0x0 => 0x7b case 0x1 => 0x79 case 0x2 => 0x7f case 0x3 => 0x7d case 0x4 => 0x73 case 0x5 => 0x71 case 0x6 => 0x77 case 0x7 => 0x75
      case 0x8 => 0x6b case 0x9 => 0x69 case 0xa => 0x6f case 0xb => 0x6d case 0xc => 0x63 case 0xd => 0x61 case 0xe => 0x67 case _ => 0x65)
    case 0xc => (
      match low
      case 0x0 => 0x9b case 0x1 => 0x99 case 0x2 => 0x9f case 0x3 => 0x9d case 0x4 => 0x93 case 0x5 => 0x91 case 0x6 => 0x97 case 0x7 => 0x95
      case 0x8 => 0x8b case 0x9 => 0x89 case 0xa => 0x8f case 0xb => 0x8d case 0xc => 0x83 case 0xd => 0x81 case 0xe => 0x87 case _ => 0x85)
    case 0xd => (
      match low
      case 0x0 => 0xbb case 0x1 => 0xb9 case 0x2 => 0xbf case 0x3 => 0xbd case 0x4 => 0xb3 case 0x5 => 0xb1 case 0x6 => 0xb7 case 0x7 => 0xb5
      case 0x8 => 0xab case 0x9 => 0xa9 case 0xa => 0xaf case 0xb => 0xad case 0xc => 0xa3 case 0xd => 0xa1 case 0xe => 0xa7 case _ => 0xa5)
    case 0xe => (
      match low
      case 0x0 => 0xdb case 0x1 => 0xd9 case 0x2 => 0xdf case 0x3 => 0xdd case 0x4 => 0xd3 case 0x5 => 0xd1 case 0x6 => 0xd7 case 0x7 => 0xd5
      case 0x8 => 0xcb case 0x9 => 0xc9 case 0xa => 0xcf case 0xb => 0xcd case 0xc => 0xc3 case 0xd => 0xc1 case 0xe => 0xc7 case _ => 0xc5)
    case _ => (
      match low
      case 0x0 => 0xfb case 0x1 => 0xf9 case 0x2 => 0xff case 0x3 => 0xfd case 0x4 => 0xf3 case 0x5 => 0xf1 case 0x6 => 0xf7 case 0x7 => 0xf5
      case 0x8 => 0xeb case 0x9 => 0xe9 case 0xa => 0xef case 0xb => 0xed case 0xc => 0xe3 case 0xd => 0xe1 case 0xe => 0xe7 case _ => 0xe5)
  }

  /** Column 1 of gf_mul, by the nibbles of the row index. */
  function Times03(high: byte, low: byte): byte {
    match high
    case 0x0 => (
      match low
      case 0x0 => 0x00 case 0x1 => 0x03 case 0x2 => 0x06 case 0x3 => 0x05 case 0x4 => 0x0c case 0x5 => 0x0f case 0x6 => 0x0a case 0x7 => 0x09
      case 0x8 => 0x18 case 0x9 => 0x1b case 0xa => 0x1e case 0xb => 0x1d case 0xc => 0x14 case 0xd => 0x17 case 0xe => 0x12 case _ => 0x11)
    case 0x1 => (
      match low
      case 0x0 => 0x30 case 0x1 => 0x33 case 0x2 => 0x36 case 0x3 => 0x35 case 0x4 => 0x3c case 0x5 => 0x3f case 0x6 => 0x3a case 0x7 => 0x39
      case 0x8 => 0x28 case 0x9 => 0x2b case 0xa => 0x2e case 0xb => 0x2d case 0xc => 0x24 case 0xd => 0x27 case 0xe => 0x22 case _ => 0x21)
    case 0x2 => (
      match low
      case 0x0 => 0x60 case 0x1 => 0x63 case 0x2 => 0x66 case 0x3 => 0x65 case 0x4 => 0x6c case 0x5 => 0x6f case 0x6 => 0x6a case 0x7 => 0x69
      case 0x8 => 0x78 case 0x9 => 0x7b case 0xa => 0x7e case 0xb => 0x7d case 0xc => 0x74 case 0xd => 0x77 case 0xe => 0x72 case _ => 0x71)
    case 0x3 => (
      match low
      case 0x0 => 0x50 case 0x1 => 0x53 case 0x2 => 0x56 case 0x3 => 0x55 case 0x4 => 0x5c case 0x5 => 0x5f case 0x6 => 0x5a case 0x7 => 0x59
      case 0x8 => 0x48 case 0x9 => 0x4b case 0xa => 0x4e case 0xb => 0x4d case 0xc => 0x44 case 0xd => 0x47 case 0xe => 0x42 case _ => 0x41)
    case 0x4 => (
      match low
      case 0x0 => 0xc0 case 0x1 => 0xc3 case 0x2 => 0xc6 case 0x3 => 0xc5 case 0x4 => 0xcc case 0x5 => 0xcf case 0x6 => 0xca case 0x7 => 0xc9
      case 0x8 => 0xd8 case 0x9 => 0xdb case 0xa => 0xde case 0xb => 0xdd case 0xc => 0xd4 case 0xd => 0xd7 case 0xe => 0xd2 case _ => 0xd1)
    case 0x5 => (
      match low
      case 0x0 => 0xf0 case 0x1 => 0xf3 case 0x2 => 0xf6 case 0x3 => 0xf5 case 0x4 => 0xfc case 0x5 => 0xff case 0x6 => 0xfa case 0x7 => 0xf9
      case 0x8 => 0xe8 case 0x9 => 0xeb case 0xa => 0xee case 0xb => 0xed case 0xc => 0xe4 case 0xd => 0xe7 case 0xe => 0xe2 case _ => 0xe1)
    case 0x6 => (
      match low
      case 0x0 => 0xa0 case 0x1 => 0xa3 case 0x2 => 0xa6 case 0x3 => 0xa5 case 0x4 => 0xac case 0x5 => 0xaf case 0x6 => 0xaa case 0x7 => 0xa9
      case 0x8 => 0xb8 case 0x9 => 0xbb case 0xa => 0xbe case 0xb => 0xbd case 0xc => 0xb4 case 0xd => 0xb7 case 0xe => 0xb2 case _ => 0xb1)
    case 0x7 => (
      match low
      case 0x0 => 0x90 case 0x1 => 0x93 case 0x2 => 0x96 case 0x3 => 0x95 case 0x4 => 0x9c case 0x5 => 0x9f case 0x6 => 0x9a case 0x7 => 0x99
      case 0x8 => 0x88 case 0x9 => 0x8b case 0xa => 0x8e case 0xb => 0x8d case 0xc => 0x84 case 0xd => 0x87 case 0xe => 0x82 case _ => 0x81)
    case 0x8 => (
      match low
      case 0x0 => 0x9b case 0x1 => 0x98 case 0x2 => 0x9d case 0x3 => 0x9e case 0x4 => 0x97 case 0x5 => 0x94 case 0x6 => 0x91 case 0x7 => 0x92
      case 0x8 => 0x83 case 0x9 => 0x80 case 0xa => 0x85 case 0xb => 0x86 case 0xc => 0x8f case 0xd => 0x8c case 0xe => 0x89 case _ => 0x8a)
    case 0x9 => (
      match low
      case 0x0 => 0xab case 0x1 => 0xa8 case 0x2 => 0xad case 0x3 => 0xae case 0x4 => 0xa7 case 0x5 => 0xa4 case 0x6 => 0xa1 case 0x7 => 0xa2
      case 0x8 => 0xb3 case 0x9 => 0xb0 case 0xa => 0xb5 case 0xb => 0xb6 case 0xc => 0xbf case 0xd => 0xbc case 0xe => 0xb9 case _ => 0xba)
    case 0xa => (
      match low
      case 0x0 => 0xfb case 0x1 => 0xf8 case 0x2 => 0xfd case 0x3 => 0xfe case 0x4 => 0xf7 case 0x5 => 0xf4 case 0x6 => 0xf1 case 0x7 => 0xf2
      case 0x8 => 0xe3 case 0x9 => 0xe0 case 0xa => 0xe5 case 0xb => 0xe6 case 0xc => 0xef case 0xd => 0xec case 0xe => 0xe9 case _ => 0xea)
    case 0xb => (
      match low
      case 0x0 => 0xcb case 0x1 => 0xc8 case 0x2 => 0xcd case 0x3 => 0xce case 0x4 => 0xc7 case 0x5 => 0xc4 case 0x6 => 0xc1 case 0x7 => 0xc2
      case 0x8 => 0xd3 case 0x9 => 0xd0 case 0xa => 0xd5 case 0xb => 0xd6 case 0xc => 0xdf case 0xd => 0xdc case 0xe => 0xd9 case _ => 0xda)
    case 0xc => (
      match low
      case 0x0 => 0x5b case 0x1 => 0x58 case 0x2 => 0x5d case 0x3 => 0x5e case 0x4 => 0x57 case 0x5 => 0x54 case 0x6 => 0x51 case 0x7 => 0x52
      case 0x8 => 0x43 case 0x9 => 0x40 case 0xa => 0x45 case 0xb => 0x46 case 0xc => 0x4f case 0xd => 0x4c case 0xe => 0x49 case _ => 0x4a)
    case 0xd => (
      match low
      case 0x0 => 0x6b case 0x1 => 0x68 case 0x2 => 0x6d case 0x3 => 0x6e case 0x4 => 0x67 case 0x5 => 0x64 case 0x6 => 0x61 case 0x7 => 0x62
      case 0x8 => 0x73 case 0x9 => 0x70 case 0xa => 0x75 case 0xb => 0x76 case 0xc => 0x7f case 0xd => 0x7c case 0xe => 0x79 case _ => 0x7a)
    case 0xe => (
      match low
      case 0x0 => 0x3b case 0x1 => 0x38 case 0x2 => 0x3d case 0x3 => 0x3e case 0x4 => 0x37 case 0x5 => 0x34 case 0x6 => 0x31 case 0x7 => 0x32
      case 0x8 => 0x23 case 0x9 => 0x20 case 0xa => 0x25 case 0xb => 0x26 case 0xc => 0x2f case 0xd => 0x2c case 0xe => 0x29 case _ => 0x2a)
    case _ => (
      match low
      case 0x0 => 0x0b case 0x1 => 0x08 case 0x2 => 0x0d case 0x3 => 0x0e case 0x4 => 0x07 case 0x5 => 0x04 case 0x6 => 0x01 case 0x7 => 0x02
      case 0x8 => 0x13 case 0x9 => 0x10 case 0xa => 0x15 case 0xb => 0x16 case 0xc => 0x1f case 0xd => 0x1c case 0xe => 0x19 case _ => 0x1a)
  }

  /** Column 2 of gf_mul, by the nibbles of the row index. */
  function Times09(high: byte, low: byte): byte {
    match high
    case 0x0 => (
      match low
      case 0x0 => 0x00 case 0x1 => 0x09 case 0x2 => 0x12 case 0x3 => 0x1b case 0x4 => 0x24 case 0x5 => 0x2d case 0x6 => 0x36 case 0x7 => 0x3f
      case 0x8 => 0x48 case 0x9 => 0x41 case 0xa => 0x5a case 0xb => 0x53 case 0xc => 0x6c case 0xd => 0x65 case 0xe => 0x7e case _ => 0x77)
    case 0x1 => (
      match low
      case 0x0 => 0x90 case 0x1 => 0x99 case 0x2 => 0x82 case 0x3 => 0x8b case 0x4 => 0xb4 case 0x5 => 0xbd case 0x6 => 0xa6 case 0x7 => 0xaf
      case 0x8 => 0xd8 case 0x9 => 0xd1 case 0xa => 0xca case 0xb => 0xc3 case 0xc => 0xfc case 0xd => 0xf5 case 0xe => 0xee case _ => 0xe7)
    case 0x2 => (
      match low
      case 0x0 => 0x3b case 0x1 => 0x32 case 0x2 => 0x29 case 0x3 => 0x20 case 0x4 => 0x1f case 0x5 => 0x16 case 0x6 => 0x0d case 0x7 => 0x04
      case 0x8 => 0x73 case 0x9 => 0x7a case 0xa => 0x61 case 0xb => 0x68 case 0xc => 0x57 case 0xd => 0x5e case 0xe => 0x45 case _ => 0x4c)
    case 0x3 => (
      match low
      case 0x0 => 0xab case 0x1 => 0xa2 case 0x2 => 0xb9 case 0x3 => 0xb0 case 0x4 => 0x8f case 0x5 => 0x86 case 0x6 => 0x9d case 0x7 => 0x94
      case 0x8 => 0xe3 case 0x9 => 0xea case 0xa => 0xf1 case 0xb => 0xf8 case 0xc => 0xc7 case 0xd => 0xce case 0xe => 0xd5 case _ => 0xdc)
    case 0x4 => (
      match low
      case 0x0 => 0x76 case 0x1 => 0x7f case 0x2 => 0x64 case 0x3 => 0x6d case 0x4 => 0x52 case 0x5 => 0x5b case 0x6 => 0x40 case 0x7 => 0x49
      case 0x8 => 0x3e case 0x9 => 0x37 case 0xa => 0x2c case 0xb => 0x25 case 0xc => 0x1a case 0xd => 0x13 case 0xe => 0x08 case _ => 0x01)
    case 0x5 => (
      match low
      case 0x0 => 0xe6 case 0x1 => 0xef case 0x2 => 0xf4 case 0x3 => 0xfd case 0x4 => 0xc2 case 0x5 => 0xcb case 0x6 => 0xd0 case 0x7 => 0xd9
      case 0x8 => 0xae case 0x9 => 0xa7 case 0xa => 0xbc case 0xb => 0xb5 case 0xc => 0x8a case 0xd => 0x83 case 0xe => 0x98 case _ => 0x91)
    case 0x6 => (
      match low
      case 0x0 => 0x4d case 0x1 => 0x44 case 0x2 => 0x5f case 0x3 => 0x56 case 0x4 => 0x69 case 0x5 => 0x60 case 0x6 => 0x7b case 0x7 => 0x72
      case 0x8 => 0x05 case 0x9 => 0x0c case 0xa => 0x17 case 0xb => 0x1e case 0xc => 0x21 case 0xd => 0x28 case 0xe => 0x33 case _ => 0x3a)
    case 0x7 => (
      match low
      case 0x0 => 0xdd case 0x1 => 0xd4 case 0x2 => 0xcf case 0x3 => 0xc6 case 0x4 => 0xf9 case 0x5 => 0xf0 case 0x6 => 0xeb case 0x7 => 0xe2
      case 0x8 => 0x95 case 0x9 => 0x9c case 0xa => 0x87 case 0xb => 0x8e case 0xc => 0xb1 case 0xd => 0xb8 case 0xe => 0xa3 case _ => 0xaa)
    case 0x8 => (
      match low
      case 0x0 => 0xec case 0x1 => 0xe5 case 0x2 => 0xfe case 0x3 => 0xf7 case 0x4 => 0xc8 case 0x5 => 0xc1 case 0x6 => 0xda case 0x7 => 0xd3
      case 0x8 => 0xa4 case 0x9 => 0xad case 0xa => 0xb6 case 0xb => 0xbf case 0xc => 0x80 case 0xd => 0x89 case 0xe => 0x92 case _ => 0x9b)
    case 0x9 => (
      match low
      case 0x0 => 0x7c case 0x1 => 0x75 case 0x2 => 0x6e case 0x3 => 0x67 case 0x4 => 0x58 case 0x5 => 0x51 case 0x6 => 0x4a case 0x7 => 0x43
      case 0x8 => 0x34 case 0x9 => 0x3d case 0xa => 0x26 case 0xb => 0x2f case 0xc => 0x10 case 0xd => 0x19 case 0xe => 0x02 case _ => 0x0b)
    case 0xa => (
      match low
      case 0x0 => 0xd7 case 0x1 => 0xde case 0x2 => 0xc5 case 0x3 => 0xcc case 0x4 => 0xf3 case 0x5 => 0xfa case 0x6 => 0xe1 case 0x7 => 0xe8
      case 0x8 => 0x9f case 0x9 => 0x96 case 0xa => 0x8d case 0xb => 0x84 case 0xc => 0xbb case 0xd => 0xb2 case 0xe => 0xa9 case _ => 0xa0)
    case 0xb => (
      match low
      case 0x0 => 0x47 case 0x1 => 0x4e case 0x2 => 0x55 case 0x3 => 0x5c case 0x4 => 0x63 case 0x5 => 0x6a case 0x6 => 0x71 case 0x7 => 0x78
      case 0x8 => 0x0f case 0x9 => 0x06 case 0xa => 0x1d case 0xb => 0x14 case 0xc => 0x2b case 0xd => 0x22 case 0xe => 0x39 case _ => 0x30)
    case 0xc => (
      match low
      case 0x0 => 0x9a case 0x1 => 0x93 case 0x2 => 0x88 case 0x3 => 0x81 case 0x4 => 0xbe case 0x5 => 0xb7 case 0x6 => 0xac case 0x7 => 0xa5
      case 0x8 => 0xd2 case 0x9 => 0xdb case 0xa => 0xc0 case 0xb => 0xc9 case 0xc => 0xf6 case 0xd => 0xff case 0xe => 0xe4 case _ => 0xed)
    case 0xd => (
      match low
      case 0x0 => 0x0a case 0x1 => 0x03 case 0x2 => 0x18 case 0x3 => 0x11 case 0x4 => 0x2e case 0x5 => 0x27 case 0x6 => 0x3c case 0x7 => 0x35
      case 0x8 => 0x42 case 0x9 => 0x4b case 0xa => 0x50 case 0xb => 0x59 case 0xc => 0x66 case 0xd => 0x6f case 0xe => 0x74 case _ => 0x7d)
    case 0xe => (
      match low
      case 0x0 => 0xa1 case 0x1 => 0xa8 case 0x2 => 0xb3 case 0x3 => 0xba case 0x4 => 0x85 case 0x5 => 0x8c case 0x6 => 0x97 case 0x7 => 0x9e
      case 0x8 => 0xe9 case 0x9 => 0xe0 case 0xa => 0xfb case 0xb => 0xf2 case 0xc => 0xcd case 0xd => 0xc4 case 0xe => 0xdf case _ => 0xd6)
    case _ => (
      match low
      case 0x0 => 0x31 case 0x1 => 0x38 case 0x2 => 0x23 case 0x3 => 0x2a case 0x4 => 0x15 case 0x5 => 0x1c case 0x6 => 0x07 case 0x7 => 0x0e
      case 0x8 => 0x79 case 0x9 => 0x70 case 0xa => 0x6b case 0xb => 0x62 case 0xc => 0x5d case 0xd => 0x54 case 0xe => 0x4f case _ => 0x46)
  }

  /** Column 3 of gf_mul, by the nibbles of the row index. */
  function Times0b(high: byte, low: byte): byte {
    match high
    case 0x0 => (
      match low
      case 0x0 => 0x00 case 0x1 => 0x0b case 0x2 => 0x16 case 0x3 => 0x1d case 0x4 => 0x2c case 0x5 => 0x27 case 0x6 => 0x3a case 0x7 => 0x31
      case 0x8 => 0x58 case 0x9 => 0x53 case 0xa => 0x4e case 0xb => 0x45 case 0xc => 0x74 case 0xd => 0x7f case 0xe => 0x62 case _ => 0x69)
    case 0x1 => (
      match low
      case 0x0 => 0xb0 case 0x1 => 0xbb case 0x2 => 0xa6 case 0x3 => 0xad case 0x4 => 0x9c case 0x5 => 0x97 case 0x6 => 0x8a case 0x7 => 0x81
      case 0x8 => 0xe8 case 0x9 => 0xe3 case 0xa => 0xfe case 0xb => 0xf5 case 0xc => 0xc4 case 0xd => 0xcf case 0xe => 0xd2 case _ => 0xd9)
    case 0x2 => (
      match low
      case 0x0 => 0x7b case 0x1 => 0x70 case 0x2 => 0x6d case 0x3 => 0x66 case 0x4 => 0x57 case 0x5 => 0x5c case 0x6 => 0x41 case 0x7 => 0x4a
      case 0x8 => 0x23 case 0x9 => 0x28 case 0xa => 0x35 case 0xb => 0x3e case 0xc => 0x0f case 0xd => 0x04 case 0xe => 0x19 case _ => 0x12)
    case 0x3 => (
      match low
      case 0x0 => 0xcb case 0x1 => 0xc0 case 0x2 => 0xdd case 0x3 => 0xd6 case 0x4 => 0xe7 case 0x5 => 0xec case 0x6 => 0xf1 case 0x7 => 0xfa
      case 0x8 => 0x93 case 0x9 => 0x98 case 0xa => 0x85 case 0xb => 0x8e case 0xc => 0xbf case 0xd => 0xb4 case 0xe => 0xa9 case _ => 0xa2)
    case 0x4 => (
      match low
      case 0x0 => 0xf6 case 0x1 => 0xfd case 0x2 => 0xe0 case 0x3 => 0xeb case 0x4 => 0xda case 0x5 => 0xd1 case 0x6 => 0xcc case 0x7 => 0xc7
      case 0x8 => 0xae case 0x9 => 0xa5 case 0xa => 0xb8 case 0xb => 0xb3 case 0xc => 0x82 case 0xd => 0x89 case 0xe => 0x94 case _ => 0x9f)
    case 0x5 => (
      match low
      case 0x0 => 0x46 case 0x1 => 0x4d case 0x2 => 0x50 case 0x3 => 0x5b case 0x4 => 0x6a case 0x5 => 0x61 case 0x6 => 0x7c case 0x7 => 0x77
      case 0x8 => 0x1e case 0x9 => 0x15 case 0xa => 0x08 case 0xb => 0x03 case 0xc => 0x32 case 0xd => 0x39 case 0xe => 0x24 case _ => 0x2f)
    case 0x6 => (
      match low
      case 0x0 => 0x8d case 0x1 => 0x86 case 0x2 => 0x9b case 0x3 => 0x90 case 0x4 => 0xa1 case 0x5 => 0xaa case 0x6 => 0xb7 case 0x7 => 0xbc
      case 0x8 => 0xd5 case 0x9 => 0xde case 0xa => 0xc3 case 0xb => 0xc8 case 0xc => 0xf9 case 0xd => 0xf2 case 0xe => 0xef case _ => 0xe4)
    case 0x7 => (
      match low
      case 0x0 => 0x3d case 0x1 => 0x36 case 0x2 => 0x2b case 0x3 => 0x20 case 0x4 => 0x11 case 0x5 => 0x1a case 0x6 => 0x07 case 0x7 => 0x0c
      case 0x8 => 0x65 case 0x9 => 0x6e case 0xa => 0x73 case 0xb => 0x78 case 0xc => 0x49 case 0xd => 0x42 case 0xe => 0x5f case _ => 0x54)
    case 0x8 => (
      match low
      case 0x0 => 0xf7 case 0x1 => 0xfc case 0x2 => 0xe1 case 0x3 => 0xea case 0x4 => 0xdb case 0x5 => 0xd0 case 0x6 => 0xcd case 0x7 => 0xc6
      case 0x8 => 0xaf case 0x9 => 0xa4 case 0xa => 0xb9 case 0xb => 0xb2 case 0xc => 0x83 case 0xd => 0x88 case 0xe => 0x95 case _ => 0x9e)
    case 0x9 => (
      match low
      case 0x0 => 0x47 case 0x1 => 0x4c case 0x2 => 0x51 case 0x3 => 0x5a case 0x4 => 0x6b case 0x5 => 0x60 case 0x6 => 0x7d case 0x7 => 0x76
      case 0x8 => 0x1f case 0x9 => 0x14 case 0xa => 0x09 case 0xb => 0x02 case 0xc => 0x33 case 0xd => 0x38 case 0xe => 0x25 case _ => 0x2e)
    case 0xa => (
      match low
      case 0x0 => 0x8c case 0x1 => 0x87 case 0x2 => 0x9a case 0x3 => 0x91 case 0x4 => 0xa0 case 0x5 => 0xab case 0x6 => 0xb6 case 0x7 => 0xbd
      case 0x8 => 0xd4 case 0x9 => 0xdf case 0xa => 0xc2 case 0xb => 0xc9 case 0xc => 0xf8 case 0xd => 0xf3 case 0xe => 0xee case _ => 0xe5)
    case 0xb => (
      match low
      case 0x0 => 0x3c case 0x1 => 0x37 case 0x2 => 0x2a case 0x3 => 0x21 case 0x4 => 0x10 case 0x5 => 0x1b case 0x6 => 0x06 case 0x7 => 0x0d
      case 0x8 => 0x64 case 0x9 => 0x6f case 0xa => 0x72 case 0xb => 0x79 case 0xc => 0x48 case 0xd => 0x43 case 0xe => 0x5e case _ => 0x55)
    case 0xc => (
      match low
      case 0x0 => 0x01 case 0x1 => 0x0a case 0x2 => 0x17 case 0x3 => 0x1c case 0x4 => 0x2d case 0x5 => 0x26 case 0x6 => 0x3b case 0x7 => 0x30
      case 0x8 => 0x59 case 0x9 => 0x52 case 0xa => 0x4f case 0xb => 0x44 case 0xc => 0x75 case 0xd => 0x7e case 0xe => 0x63 case _ => 0x68)
    case 0xd => (
      match low
      case 0x0 => 0xb1 case 0x1 => 0xba case 0x2 => 0xa7 case 0x3 => 0xac case 0x4 => 0x9d case 0x5 => 0x96 case 0x6 => 0x8b case 0x7 => 0x80
      case 0x8 => 0xe9 case 0x9 => 0xe2 case 0xa => 0xff case 0xb => 0xf4 case 0xc => 0xc5 case 0xd => 0xce case 0xe => 0xd3 case _ => 0xd8)
    case 0xe => (
      match low
      case 0x0 => 0x7a case 0x1 => 0x71 case 0x2 => 0x6c case 0x3 => 0x67 case 0x4 => 0x56 case 0x5 => 0x5d case 0x6 => 0x40 case 0x7 => 0x4b
      case 0x8 => 0x22 case 0x9 => 0x29 case 0xa => 0x34 case 0xb => 0x3f case 0xc => 0x0e case 0xd => 0x05 case 0xe => 0x18 case _ => 0x13)
    case _ => (
      match low
      case 0x0 => 0xca case 0x1 => 0xc1 case 0x2 => 0xdc case 0x3 => 0xd7 case 0x4 => 0xe6 case 0x5 => 0xed case 0x6 => 0xf0 case 0x7 => 0xfb
      case 0x8 => 0x92 case 0x9 => 0x99 case 0xa => 0x84 case 0xb => 0x8f case 0xc => 0xbe case 0xd => 0xb5 case 0xe => 0xa8 case _ => 0xa3)
  }

  /** Column 4 of gf_mul, by the nibbles of the row index. */
  function Times0d(high: byte, low: byte): byte {
    match high
    case 0x0 => (
      match low
      case 0x0 => 0x00 case 0x1 => 0x0d case 0x2 => 0x1a case 0x3 => 0x17 case 0x4 => 0x34 case 0x5 => 0x39 case 0x6 => 0x2e case 0x7 => 0x23
      case 0x8 => 0x68 case 0x9 => 0x65 case 0xa => 0x72 case 0xb => 0x7f case 0xc => 0x5c case 0xd => 0x51 case 0xe => 0x46 case _ => 0x4b)
    case 0x1 => (
      match low
      case 0x0 => 0xd0 case 0x1 => 0xdd case 0x2 => 0xca case 0x3 => 0xc7 case 0x4 => 0xe4 case 0x5 => 0xe9 case 0x6 => 0xfe case 0x7 => 0xf3
      case 0x8 => 0xb8 case 0x9 => 0xb5 case 0xa => 0xa2 case 0xb => 0xaf case 0xc => 0x8c case 0xd => 0x81 case 0xe => 0x96 case _ => 0x9b)
    case 0x2 => (
      match low
      case 0x0 => 0xbb case 0x1 => 0xb6 case 0x2 => 0xa1 case 0x3 => 0xac case 0x4 => 0x8f case 0x5 => 0x82 case 0x6 => 0x95 case 0x7 => 0x98
      case 0x8 => 0xd3 case 0x9 => 0xde case 0xa => 0xc9 case 0xb => 0xc4 case 0xc => 0xe7 case 0xd => 0xea case 0xe => 0xfd case _ => 0xf0)
    case 0x3 => (
      match low
      case 0x0 => 0x6b case 0x1 => 0x66 case 0x2 => 0x71 case 0x3 => 0x7c case 0x4 => 0x5f case 0x5 => 0x52 case 0x6 => 0x45 case 0x7 => 0x48
      case 0x8 => 0x03 case 0x9 => 0x0e case 0xa => 0x19 case 0xb => 0x14 case 0xc => 0x37 case 0xd => 0x3a case 0xe => 0x2d case _ => 0x20)
    case 0x4 => (
      match low
      case 0x0 => 0x6d case 0x1 => 0x60 case 0x2 => 0x77 case 0x3 => 0x7a case 0x4 => 0x59 case 0x5 => 0x54 case 0x6 => 0x43 case 0x7 => 0x4e
      case 0x8 => 0x05 case 0x9 => 0x08 case 0xa => 0x1f case 0xb => 0x12 case 0xc => 0x31 case 0xd => 0x3c case 0xe => 0x2b case _ => 0x26)
    case 0x5 => (
      match low
      case 0x0 => 0xbd case 0x1 => 0xb0 case 0x2 => 0xa7 case 0x3 => 0xaa case 0x4 => 0x89 case 0x5 => 0x84 case 0x6 => 0x93 case 0x7 => 0x9e
      case 0x8 => 0xd5 case 0x9 => 0xd8 case 0xa => 0xcf case 0xb => 0xc2 case 0xc => 0xe1 case 0xd => 0xec case 0xe => 0xfb case _ => 0xf6)
    case 0x6 => (
      match low
      case 0x0 => 0xd6 case 0x1 => 0xdb case 0x2 => 0xcc case 0x3 => 0xc1 case 0x4 => 0xe2 case 0x5 => 0xef case 0x6 => 0xf8 case 0x7 => 0xf5
      case 0x8 => 0xbe case 0x9 => 0xb3 case 0xa => 0xa4 case 0xb => 0xa9 case 0xc => 0x8a case 0xd => 0x87 case 0xe => 0x90 case _ => 0x9d)
    case 0x7 => (
      match low
      case 0x0 => 0x06 case 0x1 => 0x0b case 0x2 => 0x1c case 0x3 => 0x11 case 0x4 => 0x32 case 0x5 => 0x3f case 0x6 => 0x28 case 0x7 => 0x25
      case 0x8 => 0x6e case 0x9 => 0x63 case 0xa => 0x74 case 0xb => 0x79 case 0xc => 0x5a case 0xd => 0x57 case 0xe => 0x40 case _ => 0x4d)
    case 0x8 => (
      match low
      case 0x0 => 0xda case 0x1 => 0xd7 case 0x2 => 0xc0 case 0x3 => 0xcd case 0x4 => 0xee case 0x5 => 0xe3 case 0x6 => 0xf4 case 0x7 => 0xf9
      case 0x8 => 0xb2 case 0x9 => 0xbf case 0xa => 0xa8 case 0xb => 0xa5 case 0xc => 0x86 case 0xd => 0x8b case 0xe => 0x9c case _ => 0x91)
    case 0x9 => (
      match low
      case 0x0 => 0x0a case 0x1 => 0x07 case 0x2 => 0x10 case 0x3 => 0x1d case 0x4 => 0x3e case 0x5 => 0x33 case 0x6 => 0x24 case 0x7 => 0x29
      case 0x8 => 0x62 case 0x9 => 0x6f case 0xa => 0x78 case 0xb => 0x75 case 0xc => 0x56 case 0xd => 0x5b case 0xe => 0x4c case _ => 0x41)
    case 0xa => (
      match low
      case 0x0 => 0x61 case 0x1 => 0x6c case 0x2 => 0x7b case 0x3 => 0x76 case 0x4 => 0x55 case 0x5 => 0x58 case 0x6 => 0x4f case 0x7 => 0x42
      case 0x8 => 0x09 case 0x9 => 0x04 case 0xa => 0x13 case 0xb => 0x1e case 0xc => 0x3d case 0xd => 0x30 case 0xe => 0x27 case _ => 0x2a)
    case 0xb => (
      match low
      case 0x0 => 0xb1 case 0x1 => 0xbc case 0x2 => 0xab case 0x3 => 0xa6 case 0x4 => 0x85 case 0x5 => 0x88 case 0x6 => 0x9f case 0x7 => 0x92
      case 0x8 => 0xd9 case 0x9 => 0xd4 case 0xa => 0xc3 case 0xb => 0xce case 0xc => 0xed case 0xd => 0xe0 case 0xe => 0xf7 case _ => 0xfa)
    case 0xc => (
      match low
      case 0x0 => 0xb7 case 0x1 => 0xba case 0x2 => 0xad case 0x3 => 0xa0 case 0x4 => 0x83 case 0x5 => 0x8e case 0x6 => 0x99 case 0x7 => 0x94
      case 0x8 => 0xdf case 0x9 => 0xd2 case 0xa => 0xc5 case 0xb => 0xc8 case 0xc => 0xeb case 0xd => 0xe6 case 0xe => 0xf1 case _ => 0xfc)
    case 0xd => (
      match low
      case 0x0 => 0x67 case 0x1 => 0x6a case 0x2 => 0x7d case 0x3 => 0x70 case 0x4 => 0x53 case 0x5 => 0x5e case 0x6 => 0x49 case 0x7 => 0x44
      case 0x8 => 0x0f case 0x9 => 0x02 case 0xa => 0x15 case 0xb => 0x18 case 0xc => 0x3b case 0xd => 0x36 case 0xe => 0x21 case _ => 0x2c)
    case 0xe => (
      match low
      case 0x0 => 0x0c case 0x1 => 0x01 case 0x2 => 0x16 case 0x3 => 0x1b case 0x4 => 0x38 case 0x5 => 0x35 case 0x6 => 0x22 case 0x7 => 0x2f
      case 0x8 => 0x64 case 0x9 => 0x69 case 0xa => 0x7e case 0xb => 0x73 case 0xc => 0x50 case 0xd => 0x5d case 0xe => 0x4a case _ => 0x47)
    case _ => (
      match low
      case 0x0 => 0xdc case 0x1 => 0xd1 case 0x2 => 0xc6 case 0x3 => 0xcb case 0x4 => 0xe8 case 0x5 => 0xe5 case 0x6 => 0xf2 case 0x7 => 0xff
      case 0x8 => 0xb4 case 0x9 => 0xb9 case 0xa => 0xae case 0xb => 0xa3 case 0xc => 0x80 case 0xd => 0x8d case 0xe => 0x9a case _ => 0x97)
  }

  /** Column 5 of gf_mul, by the nibbles of the row index. */
  function Times0e(high: byte, low: byte): byte {
    match high
    case 0x0 => (
      match low
      case 0x0 => 0x00 case 0x1 => 0x0e case 0x2 => 0x1c case 0x3 => 0x12 case 0x4 => 0x38 case 0x5 => 0x36 case 0x6 => 0x24 case 0x7 => 0x2a
      case 0x8 => 0x70 case 0x9 => 0x7e case 0xa => 0x6c case 0xb => 0x62 case 0xc => 0x48 case 0xd => 0x46 case 0xe => 0x54 case _ => 0x5a)
    case 0x1 => (
      match low
      case 0x0 => 0xe0 case 0x1 => 0xee case 0x2 => 0xfc case 0x3 => 0xf2 case 0x4 => 0xd8 case 0x5 => 0xd6 case 0x6 => 0xc4 case 0x7 => 0xca
      case 0x8 => 0x90 case 0x9 => 0x9e case 0xa => 0x8c case 0xb => 0x82 case 0xc => 0xa8 case 0xd => 0xa6 case 0xe => 0xb4 case _ => 0xba)
    case 0x2 => (
      match low
      case 0x0 => 0xdb case 0x1 => 0xd5 case 0x2 => 0xc7 case 0x3 => 0xc9 case 0x4 => 0xe3 case 0x5 => 0xed case 0x6 => 0xff case 0x7 => 0xf1
      case 0x8 => 0xab case 0x9 => 0xa5 case 0xa => 0xb7 case 0xb => 0xb9 case 0xc => 0x93 case 0xd => 0x9d case 0xe => 0x8f case _ => 0x81)
    case 0x3 => (
      match low
      case 0x0 => 0x3b case 0x1 => 0x35 case 0x2 => 0x27 case 0x3 => 0x29 case 0x4 => 0x03 case 0x5 => 0x0d case 0x6 => 0x1f case 0x7 => 0x11
      case 0x8 => 0x4b case 0x9 => 0x45 case 0xa => 0x57 case 0xb => 0x59 case 0xc => 0x73 case 0xd => 0x7d case 0xe => 0x6f case _ => 0x61)
    case 0x4 => (
      match low
      case 0x0 => 0xad case 0x1 => 0xa3 case 0x2 => 0xb1 case 0x3 => 0xbf case 0x4 => 0x95 case 0x5 => 0x9b case 0x6 => 0x89 case 0x7 => 0x87
      case 0x8 => 0xdd case 0x9 => 0xd3 case 0xa => 0xc1 case 0xb => 0xcf case 0xc => 0xe5 case 0xd => 0xeb case 0xe => 0xf9 case _ => 0xf7)
    case 0x5 => (
      match low
      case 0x0 => 0x4d case 0x1 => 0x43 case 0x2 => 0x51 case 0x3 => 0x5f case 0x4 => 0x75 case 0x5 => 0x7b case 0x6 => 0x69 case 0x7 => 0x67
      case 0x8 => 0x3d case 0x9 => 0x33 case 0xa => 0x21 case 0xb => 0x2f case 0xc => 0x05 case 0xd => 0x0b case 0xe => 0x19 case _ => 0x17)
    case 0x6 => (
      match low
      case 0x0 => 0x76 case 0x1 => 0x78 case 0x2 => 0x6a case 0x3 => 0x64 case 0x4 => 0x4e case 0x5 => 0x40 case 0x6 => 0x52 case 0x7 => 0x5c
      case 0x8 => 0x06 case 0x9 => 0x08 case 0xa => 0x1a case 0xb => 0x14 case 0xc => 0x3e case 0xd => 0x30 case 0xe => 0x22 case _ => 0x2c)
    case 0x7 => (
      match low
      case 0x0 => 0x96 case 0x1 => 0x98 case 0x2 => 0x8a case 0x3 => 0x84 case 0x4 => 0xae case 0x5 => 0xa0 case 0x6 => 0xb2 case 0x7 => 0xbc
      case 0x8 => 0xe6 case 0x9 => 0xe8 case 0xa => 0xfa case 0xb => 0xf4 case 0xc => 0xde case 0xd => 0xd0 case 0xe => 0xc2 case _ => 0xcc)
    case 0x8 => (
      match low
      case 0x0 => 0x41 case 0x1 => 0x4f case 0x2 => 0x5d case 0x3 => 0x53 case 0x4 => 0x79 case 0x5 => 0x77 case 0x6 => 0x65 case 0x7 => 0x6b
      case 0x8 => 0x31 case 0x9 => 0x3f case 0xa => 0x2d case 0xb => 0x23 case 0xc => 0x09 case 0xd => 0x07 case 0xe => 0x15 case _ => 0x1b)
    case 0x9 => (
      match low
      case 0x0 => 0xa1 case 0x1 => 0xaf case 0x2 => 0xbd case 0x3 => 0xb3 case 0x4 => 0x99 case 0x5 => 0x97 case 0x6 => 0x85 case 0x7 => 0x8b
      case 0x8 => 0xd1 case 0x9 => 0xdf case 0xa => 0xcd case 0xb => 0xc3 case 0xc => 0xe9 case 0xd => 0xe7 case 0xe => 0xf5 case _ => 0xfb)
    case 0xa => (
      match low
      case 0x0 => 0x9a case 0x1 => 0x94 case 0x2 => 0x86 case 0x3 => 0x88 case 0x4 => 0xa2 case 0x5 => 0xac case 0x6 => 0xbe case 0x7 => 0xb0
      case 0x8 => 0xea case 0x9 => 0xe4 case 0xa => 0xf6 case 0xb => 0xf8 case 0xc => 0xd2 case 0xd => 0xdc case 0xe => 0xce case _ => 0xc0)
    case 0xb => (
      match low
      case 0x0 => 0x7a case 0x1 => 0x74 case 0x2 => 0x66 case 0x3 => 0x68 case 0x4 => 0x42 case 0x5 => 0x4c case 0x6 => 0x5e case 0x7 => 0x50
      case 0x8 => 0x0a case 0x9 => 0x04 case 0xa => 0x16 case 0xb => 0x18 case 0xc => 0x32 case 0xd => 0x3c case 0xe => 0x2e case _ => 0x20)
    case 0xc => (
      match low
      case 0x0 => 0xec case 0x1 => 0xe2 case 0x2 => 0xf0 case 0x3 => 0xfe case 0x4 => 0xd4 case 0x5 => 0xda case 0x6 => 0xc8 case 0x7 => 0xc6
      case 0x8 => 0x9c case 0x9 => 0x92 case 0xa => 0x80 case 0xb => 0x8e case 0xc => 0xa4 case 0xd => 0xaa case 0xe => 0xb8 case _ => 0xb6)
    case 0xd => (
      match low
      case 0x0 => 0x0c case 0x1 => 0x02 case 0x2 => 0x10 case 0x3 => 0x1e case 0x4 => 0x34 case 0x5 => 0x3a case 0x6 => 0x28 case 0x7 => 0x26
      case 0x8 => 0x7c case 0x9 => 0x72 case 0xa => 0x60 case 0xb => 0x6e case 0xc => 0x44 case 0xd => 0x4a case 0xe => 0x58 case _ => 0x56)
    case 0xe => (
      match low
      case 0x0 => 0x37 case 0x1 => 0x39 case 0x2 => 0x2b case 0x3 => 0x25 case 0x4 => 0x0f case 0x5 => 0x01 case 0x6 => 0x13 case 0x7 => 0x1d
      case 0x8 => 0x47 case 0x9 => 0x49 case 0xa => 0x5b case 0xb => 0x55 case 0xc => 0x7f case 0xd => 0x71 case 0xe => 0x63 case _ => 0x6d)
    case _ => (
      match low
      case 0x0 => 0xd7 case 0x1 => 0xd9 case 0x2 => 0xcb case 0x3 => 0xc5 case 0x4 => 0xef case 0x5 => 0xe1 case 0x6 => 0xf3 case 0x7 => 0xfd
      case 0x8 => 0xa7 case 0x9 => 0xa9 case 0xa => 0xbb case 0xb => 0xb5 case 0xc => 0x9f case 0xd => 0x91 case 0xe => 0x83 case _ => 0x8d)
  }

  /** gf_mul[x][column] */
  function GfMul(x: byte, column: nat): byte
    requires column < 6
  {
    match column
    case 0 => Times02(x >> 4, x & 0x0f)
    case 1 => Times03(x >> 4, x & 0x0f)
    case 2 => Times09(x >> 4, x & 0x0f)
    case 3 => Times0b(x >> 4, x & 0x0f)
    case 4 => Times0d(x >> 4, x & 0x0f)
    case _ => Times0e(x >> 4, x & 0x0f)
  }

  /** The coefficient a column of the table stands for. */
  function ColumnConstant(column: nat): byte
    requires column < 6
  {
    match column
    case 0 => 0x02
    case 1 => 0x03
    case 2 => 0x09
    case 3 => 0x0b
    case 4 => 0x0d
    case _ => 0x0e
  }

  lemma JoinNibbles(x: byte)
    ensures ((x >> 4) << 4) | (x & 0x0f) == x
  {
  }

  lemma NibblesBelow16(x: byte)
    ensures x >> 4 < 16 && x & 0x0f < 16
  {
  }

  // One column at a time, and one row of sixteen entries after the other.

  lemma Column02(high: byte, low: byte)
    requires high < 16 && low < 16
    ensures Times02(high, low) == ByteProduct((high << 4) | low, 0x02)
  {
    match high {
      case 0x0 => case 0x1 => case 0x2 => case 0x3 => case 0x4 => case 0x5 => case 0x6 => case 0x7 =>
      case 0x8 => case 0x9 => case 0xa => case 0xb => case 0xc => case 0xd => case 0xe => case _ =>
    }
  }

  lemma Column03(high: byte, low: byte)
    requires high < 16 && low < 16
    ensures Times03(high, low) == ByteProduct((high << 4) | low, 0x03)
  {
    match high {
      case 0x0 => case 0x1 => case 0x2 => case 0x3 => case 0x4 => case 0x5 => case 0x6 => case 0x7 =>
      case 0x8 => case 0x9 => case 0xa => case 0xb => case 0xc => case 0xd => case 0xe => case _ =>
    }
  }

  lemma Column09(high: byte, low: byte)
    requires high < 16 && low < 16
    ensures Times09(high, low) == ByteProduct((high << 4) | low, 0x09)
  {
    match high {
      case 0x0 => case 0x1 => case 0x2 => case 0x3 => case 0x4 => case 0x5 => case 0x6 => case 0x7 =>
      case 0x8 => case 0x9 => case 0xa => case 0xb => case 0xc => case 0xd => case 0xe => case _ =>
    }
  }

  lemma Column0b(high: byte, low: byte)
    requires high < 16 && low < 16
    ensures Times0b(high, low) == ByteProduct((high << 4) | low, 0x0b)
  {
    match high {
      case 0x0 => case 0x1 => case 0x2 => case 0x3 => case 0x4 => case 0x5 => case 0x6 => case 0x7 =>
      case 0x8 => case 0x9 => case 0xa => case 0xb => case 0xc => case 0xd => case 0xe => case _ =>
    }
  }

  lemma Column0d(high: byte, low: byte)
    requires high < 16 && low < 16
    ensures Times0d(high, low) == ByteProduct((high << 4) | low, 0x0d)
  {
    match high {
      case 0x0 => case 0x1 => case 0x2 => case 0x3 => case 0x4 => case 0x5 => case 0x6 => case 0x7 =>
      case 0x8 => case 0x9 => case 0xa => case 0xb => case 0xc => case 0xd => case 0xe => case _ =>
    }
  }

  lemma Column0e(high: byte, low: byte)
    requires high < 16 && low < 16
    ensures Times0e(high, low) == ByteProduct((high << 4) | low, 0x0e)
  {
    match high {
      case 0x0 => case 0x1 => case 0x2 => case 0x3 => case 0x4 => case 0x5 => case 0x6 => case 0x7 =>
      case 0x8 => case 0x9 => case 0xa => case 0xb => case 0xc => case 0xd => case 0xe => case _ =>
    }
  }

  /** Every entry of the table is the product it stands for. */
  lemma TableIsMultiplication(x: byte, column: nat)
    requires column < 6
    ensures GfMul(x, column) == Mul(x, ColumnConstant(column))
  {
    hide Mul, ByteProduct, Times02, Times03, Times09, Times0b, Times0d, Times0e;
    MulIsByteProduct(x, ColumnConstant(column));
    JoinNibbles(x);
    NibblesBelow16(x);
    match column
    case 0 => Column02(x >> 4, x & 0x0f);
    case 1 => Column03(x >> 4, x & 0x0f);
    case 2 => Column09(x >> 4, x & 0x0f);
    case 3 => Column0b(x >> 4, x & 0x0f);
    case 4 => Column0d(x >> 4, x & 0x0f);
    case _ => Column0e(x >> 4, x & 0x0f);
  }
}

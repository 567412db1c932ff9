/**
 The column maps of sections 5.1.3 and 5.3.3 of FIPS 197 as matrix products over GF(2^8),
 and the proof that the two matrices are inverse to each other.
 */
module ColumnMatrix {
  import opened Bytes
  import opened GaloisField

  datatype Column = Column(b0: byte, b1: byte, b2: byte, b3: byte)

  function Sum4(a: byte, b: byte, c: byte, d: byte): byte {
    Add(Add(a, b), Add(c, d))
  }

  /** The first row of the MixColumns matrix; the other rows are its rotations. */
  function MixByte(a: byte, b: byte, c: byte, d: byte): byte {
    Sum4(Mul(a, 0x02), Mul(b, 0x03), c, d)
  }

  /** The first row of the InvMixColumns matrix; the other rows are its rotations. */
  function InvMixByte(a: byte, b: byte, c: byte, d: byte): byte {
    Sum4(Mul(a, 0x0e), Mul(b, 0x0b), Mul(c, 0x0d), Mul(d, 0x09))
  }

  function Mix(c: Column): Column {
    Column(MixByte(c.b0, c.b1, c.b2, c.b3), MixByte(c.b1, c.b2, c.b3, c.b0),
           MixByte(c.b2, c.b3, c.b0, c.b1), MixByte(c.b3, c.b0, c.b1, c.b2))
  }

  function InvMix(c: Column): Column {
    Column(InvMixByte(c.b0, c.b1, c.b2, c.b3), InvMixByte(c.b1, c.b2, c.b3, c.b0),
           InvMixByte(c.b2, c.b3, c.b0, c.b1), InvMixByte(c.b3, c.b0, c.b1, c.b2))
  }

  // ---------- Rearranging sums ----------

  lemma SumExchange(a: byte, b: byte, c: byte, d: byte, e: byte, f: byte, g: byte, h: byte)
    ensures Add(Sum4(a, b, c, d), Sum4(e, f, g, h)) == Sum4(Add(a, e), Add(b, f), Add(c, g), Add(d, h))
  {
    hide Add;
    AddExchange(Add(a, b), Add(c, d), Add(e, f), Add(g, h));
    AddExchange(a, b, e, f);
    AddExchange(c, d, g, h);
  }

  lemma SumRotate1(a: byte, b: byte, c: byte, d: byte)
    ensures Sum4(a, b, c, d) == Sum4(d, a, b, c)
  {
    hide Add;
    AddCommutes(Add(a, b), Add(c, d));
    AddExchange(d, c, a, b);
    AddCommutes(c, d);
    AddCommutes(c, b);
  }

  lemma SumRotate2(a: byte, b: byte, c: byte, d: byte)
    ensures Sum4(a, b, c, d) == Sum4(c, d, a, b)
  {
    hide Add;
    AddCommutes(Add(a, b), Add(c, d));
  }

  lemma SumRotate3(a: byte, b: byte, c: byte, d: byte)
    ensures Sum4(a, b, c, d) == Sum4(b, c, d, a)
  {
    hide Sum4;
    SumRotate1(a, b, c, d);
    SumRotate2(d, a, b, c);
  }

  lemma SumUnit(a: byte)
    ensures Sum4(a, 0, 0, 0) == a
  {
    hide Add;
    AddSelf(a);
    AddSelf(0);
  }

  /** A sum of four row sums is the sum of the column sums. */
  lemma Transpose(a: Column, b: Column, c: Column, d: Column)
    ensures Sum4(Sum4(a.b0, a.b1, a.b2, a.b3), Sum4(b.b0, b.b1, b.b2, b.b3),
                 Sum4(c.b0, c.b1, c.b2, c.b3), Sum4(d.b0, d.b1, d.b2, d.b3))
         == Sum4(Sum4(a.b0, b.b0, c.b0, d.b0), Sum4(a.b1, b.b1, c.b1, d.b1),
                 Sum4(a.b2, b.b2, c.b2, d.b2), Sum4(a.b3, b.b3, c.b3, d.b3))
  {
    hide Add;
    SumExchange(a.b0, a.b1, a.b2, a.b3, b.b0, b.b1, b.b2, b.b3);
    SumExchange(c.b0, c.b1, c.b2, c.b3, d.b0, d.b1, d.b2, d.b3);
    SumExchange(Add(a.b0, b.b0), Add(a.b1, b.b1), Add(a.b2, b.b2), Add(a.b3, b.b3),
                Add(c.b0, d.b0), Add(c.b1, d.b1), Add(c.b2, d.b2), Add(c.b3, d.b3));
  }

  lemma MulSum(a: byte, b: byte, c: byte, d: byte, k: byte)
    ensures Mul(Sum4(a, b, c, d), k) == Sum4(Mul(a, k), Mul(b, k), Mul(c, k), Mul(d, k))
  {
    hide Add, Mul;
    MulLinear(Add(a, b), Add(c, d), k);
    MulLinear(a, b, k);
    MulLinear(c, d, k);
  }

  // ---------- The entries of the product matrices ----------

  lemma MulMulIsByteProduct(x: byte, j: byte, k: byte)
    ensures Mul(Mul(x, j), k) == ByteProduct(ByteProduct(x, j), k)
  {
    hide Mul, ByteProduct;
    MulIsByteProduct(x, j);
    MulIsByteProduct(Mul(x, j), k);
  }

  // The coefficient of each byte in the first row of the two product matrices: one on the
  // diagonal and zero elsewhere.

  lemma UndoFirst(x: byte)
    ensures Sum4(ByteProduct(ByteProduct(x, 0x02), 0x0e), ByteProduct(x, 0x0b),
                 ByteProduct(x, 0x0d), ByteProduct(ByteProduct(x, 0x03), 0x09)) == x
  {
  }

  lemma UndoSecond(x: byte)
    ensures Sum4(ByteProduct(ByteProduct(x, 0x03), 0x0e), ByteProduct(ByteProduct(x, 0x02), 0x0b),
                 ByteProduct(x, 0x0d), ByteProduct(x, 0x09)) == 0
  {
  }

  lemma UndoThird(x: byte)
    ensures Sum4(ByteProduct(x, 0x0e), ByteProduct(ByteProduct(x, 0x03), 0x0b),
                 ByteProduct(ByteProduct(x, 0x02), 0x0d), ByteProduct(x, 0x09)) == 0
  {
  }

  lemma UndoFourth(x: byte)
    ensures Sum4(ByteProduct(x, 0x0e), ByteProduct(x, 0x0b),
                 ByteProduct(ByteProduct(x, 0x03), 0x0d), ByteProduct(ByteProduct(x, 0x02), 0x09)) == 0
  {
  }

  lemma RedoFirst(x: byte)
    ensures Sum4(ByteProduct(ByteProduct(x, 0x0e), 0x02), ByteProduct(ByteProduct(x, 0x09), 0x03),
                 ByteProduct(x, 0x0d), ByteProduct(x, 0x0b)) == x
  {
  }

  lemma RedoSecond(x: byte)
    ensures Sum4(ByteProduct(ByteProduct(x, 0x0b), 0x02), ByteProduct(ByteProduct(x, 0x0e), 0x03),
                 ByteProduct(x, 0x09), ByteProduct(x, 0x0d)) == 0
  {
  }

  lemma RedoThird(x: byte)
    ensures Sum4(ByteProduct(ByteProduct(x, 0x0d), 0x02), ByteProduct(ByteProduct(x, 0x0b), 0x03),
                 ByteProduct(x, 0x0e), ByteProduct(x, 0x09)) == 0
  {
  }

  lemma RedoFourth(x: byte)
    ensures Sum4(ByteProduct(ByteProduct(x, 0x09), 0x02), ByteProduct(ByteProduct(x, 0x0d), 0x03),
                 ByteProduct(x, 0x0b), ByteProduct(x, 0x0e)) == 0
  {
  }

  lemma InvMixByteUndoes(a: byte, b: byte, c: byte, d: byte)
    ensures InvMixByte(MixByte(a, b, c, d), MixByte(b, c, d, a), MixByte(c, d, a, b), MixByte(d, a, b, c)) == a
  {
    hide Add, Mul, ByteProduct, Sum4;
    MulSum(Mul(a, 0x02), Mul(b, 0x03), c, d, 0x0e);
    MulSum(Mul(b, 0x02), Mul(c, 0x03), d, a, 0x0b);
    SumRotate1(Mul(Mul(b, 0x02), 0x0b), Mul(Mul(c, 0x03), 0x0b), Mul(d, 0x0b), Mul(a, 0x0b));
    MulSum(Mul(c, 0x02), Mul(d, 0x03), a, b, 0x0d);
    SumRotate2(Mul(Mul(c, 0x02), 0x0d), Mul(Mul(d, 0x03), 0x0d), Mul(a, 0x0d), Mul(b, 0x0d));
    MulSum(Mul(d, 0x02), Mul(a, 0x03), b, c, 0x09);
    SumRotate3(Mul(Mul(d, 0x02), 0x09), Mul(Mul(a, 0x03), 0x09), Mul(b, 0x09), Mul(c, 0x09));
    Transpose(Column(Mul(Mul(a, 0x02), 0x0e), Mul(Mul(b, 0x03), 0x0e), Mul(c, 0x0e), Mul(d, 0x0e)),
              Column(Mul(a, 0x0b), Mul(Mul(b, 0x02), 0x0b), Mul(Mul(c, 0x03), 0x0b), Mul(d, 0x0b)),
              Column(Mul(a, 0x0d), Mul(b, 0x0d), Mul(Mul(c, 0x02), 0x0d), Mul(Mul(d, 0x03), 0x0d)),
              Column(Mul(Mul(a, 0x03), 0x09), Mul(b, 0x09), Mul(c, 0x09), Mul(Mul(d, 0x02), 0x09)));
    MulMulIsByteProduct(a, 0x02, 0x0e);
    MulIsByteProduct(a, 0x0b);
    MulIsByteProduct(a, 0x0d);
    MulMulIsByteProduct(a, 0x03, 0x09);
    MulMulIsByteProduct(b, 0x03, 0x0e);
    MulMulIsByteProduct(b, 0x02, 0x0b);
    MulIsByteProduct(b, 0x0d);
    MulIsByteProduct(b, 0x09);
    MulIsByteProduct(c, 0x0e);
    MulMulIsByteProduct(c, 0x03, 0x0b);
    MulMulIsByteProduct(c, 0x02, 0x0d);
    MulIsByteProduct(c, 0x09);
    MulIsByteProduct(d, 0x0e);
    MulIsByteProduct(d, 0x0b);
    MulMulIsByteProduct(d, 0x03, 0x0d);
    MulMulIsByteProduct(d, 0x02, 0x09);
    UndoFirst(a);
    UndoSecond(b);
    UndoThird(c);
    UndoFourth(d);
    SumUnit(a);
  }

  lemma MixByteUndoes(a: byte, b: byte, c: byte, d: byte)
    ensures MixByte(InvMixByte(a, b, c, d), InvMixByte(b, c, d, a), InvMixByte(c, d, a, b), InvMixByte(d, a, b, c)) == a
  {
    hide Add, Mul, ByteProduct, Sum4;
    MulSum(Mul(a, 0x0e), Mul(b, 0x0b), Mul(c, 0x0d), Mul(d, 0x09), 0x02);
    MulSum(Mul(b, 0x0e), Mul(c, 0x0b), Mul(d, 0x0d), Mul(a, 0x09), 0x03);
    SumRotate1(Mul(Mul(b, 0x0e), 0x03), Mul(Mul(c, 0x0b), 0x03), Mul(Mul(d, 0x0d), 0x03), Mul(Mul(a, 0x09), 0x03));
    SumRotate2(Mul(c, 0x0e), Mul(d, 0x0b), Mul(a, 0x0d), Mul(b, 0x09));
    SumRotate3(Mul(d, 0x0e), Mul(a, 0x0b), Mul(b, 0x0d), Mul(c, 0x09));
    Transpose(Column(Mul(Mul(a, 0x0e), 0x02), Mul(Mul(b, 0x0b), 0x02), Mul(Mul(c, 0x0d), 0x02), Mul(Mul(d, 0x09), 0x02)),
              Column(Mul(Mul(a, 0x09), 0x03), Mul(Mul(b, 0x0e), 0x03), Mul(Mul(c, 0x0b), 0x03), Mul(Mul(d, 0x0d), 0x03)),
              Column(Mul(a, 0x0d), Mul(b, 0x09), Mul(c, 0x0e), Mul(d, 0x0b)),
              Column(Mul(a, 0x0b), Mul(b, 0x0d), Mul(c, 0x09), Mul(d, 0x0e)));
    MulMulIsByteProduct(a, 0x0e, 0x02);
    MulMulIsByteProduct(a, 0x09, 0x03);
    MulIsByteProduct(a, 0x0d);
    MulIsByteProduct(a, 0x0b);
    MulMulIsByteProduct(b, 0x0b, 0x02);
    MulMulIsByteProduct(b, 0x0e, 0x03);
    MulIsByteProduct(b, 0x09);
    MulIsByteProduct(b, 0x0d);
    MulMulIsByteProduct(c, 0x0d, 0x02);
    MulMulIsByteProduct(c, 0x0b, 0x03);
    MulIsByteProduct(c, 0x0e);
    MulIsByteProduct(c, 0x09);
    MulMulIsByteProduct(d, 0x09, 0x02);
    MulMulIsByteProduct(d, 0x0d, 0x03);
    MulIsByteProduct(d, 0x0b);
    MulIsByteProduct(d, 0x0e);
    RedoFirst(a);
    RedoSecond(b);
    RedoThird(c);
    RedoFourth(d);
    SumUnit(a);
  }

  /** InvMixColumns undoes MixColumns on every column. */
  lemma InvMixUndoes(c: Column)
    ensures InvMix(Mix(c)) == c
  {
    hide InvMixByte, MixByte;
    InvMixByteUndoes(c.b0, c.b1, c.b2, c.b3);
    InvMixByteUndoes(c.b1, c.b2, c.b3, c.b0);
    InvMixByteUndoes(c.b2, c.b3, c.b0, c.b1);
    InvMixByteUndoes(c.b3, c.b0, c.b1, c.b2);
  }

  /** MixColumns undoes InvMixColumns on every column. */
  lemma MixUndoes(c: Column)
    ensures Mix(InvMix(c)) == c
  {
    hide InvMixByte, MixByte;
    MixByteUndoes(c.b0, c.b1, c.b2, c.b3);
    MixByteUndoes(c.b1, c.b2, c.b3, c.b0);
    MixByteUndoes(c.b2, c.b3, c.b0, c.b1);
    MixByteUndoes(c.b3, c.b0, c.b1, c.b2);
  }
}

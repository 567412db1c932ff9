/**
 The cipher byte by byte: what each step does to the byte in row r and column c of the state, one
 closed formula for a full round, how the words of the schedule enter the result, and the schedule
 itself.
 */
module RoundBytes {
  import opened Bytes
  import opened GaloisField
  import opened SubstitutionBox
  import opened ColumnMatrix
  import opened Cipher
  import opened KeyExpansion

  function Row(c: Column, r: nat): byte
    requires r < 4
  {
    match r
    case 0 => c.b0
    case 1 => c.b1
    case 2 => c.b2
    case _ => c.b3
  }

  /** The byte in row r and column c of the state. */
  function Cell(s: State, r: nat, c: nat): byte
    requires r < 4 && c < 4
  {
    match c
    case 0 => Row(s.c0, r)
    case 1 => Row(s.c1, r)
    case 2 => Row(s.c2, r)
    case _ => Row(s.c3, r)
  }

  /** Byte r of a word of the schedule, the most significant one first. */
  function KeyByte(w: word, r: nat): byte
    requires r < 4
  {
    match r
    case 0 => ((w >> 24) & 0xff) as byte
    case 1 => ((w >> 16) & 0xff) as byte
    case 2 => ((w >> 8) & 0xff) as byte
    case _ => (w & 0xff) as byte
  }

  /** The coefficient of x^k in {03}x^3 + {01}x^2 + {01}x + {02}, section 5.1.3 of FIPS 197. */
  function MixCoefficient(k: nat): byte
    requires k < 4
  {
    match k
    case 0 => 0x02
    case 3 => 0x03
    case _ => 0x01
  }

  // ---------- The steps ----------

  /** Byte r of column c of the state is byte r + 4c of the block, section 3.4 of FIPS 197. */
  lemma BlockCell(b: Block, s: State, r: nat, c: nat)
    requires r < 4 && c < 4
    ensures Cell(ToState(b), r, c) == b[r + 4 * c]
    ensures FromState(s)[r + 4 * c] == Cell(s, r, c)
  {
    StoredCell(s, r, c);
    match r {
      case 0 => match c { case 0 => case 1 => case 2 => case _ => }
      case 1 => match c { case 0 => case 1 => case 2 => case _ => }
      case 2 => match c { case 0 => case 1 => case 2 => case _ => }
      case _ => match c { case 0 => case 1 => case 2 => case _ => }
    }
  }

  lemma StoredCell(s: State, r: nat, c: nat)
    requires r < 4 && c < 4
    ensures FromState(s)[r + 4 * c] == Cell(s, r, c)
  {
    match r {
      case 0 => match c { case 0 => case 1 => case 2 => case _ => }
      case 1 => match c { case 0 => case 1 => case 2 => case _ => }
      case 2 => match c { case 0 => case 1 => case 2 => case _ => }
      case _ => match c { case 0 => case 1 => case 2 => case _ => }
    }
  }

  lemma SubBytesCell(s: State, r: nat, c: nat)
    requires r < 4 && c < 4
    ensures Cell(SubBytes(s), r, c) == SubByte(Cell(s, r, c))
  {
    hide SubByte;
  }

  /** Row r moves left by r places. */
  lemma ShiftRowsCell(s: State, r: nat, c: nat)
    requires r < 4 && c < 4
    ensures Cell(ShiftRows(s), r, c) == Cell(s, r, (c + r) % 4)
    ensures Cell(InvShiftRows(s), r, (c + r) % 4) == Cell(s, r, c)
  {
    match c
    case 0 =>
    case 1 =>
    case 2 =>
    case _ =>
  }

  lemma ScrambleCell(s: State, r: nat, c: nat)
    requires r < 4 && c < 4
    ensures Cell(Scramble(s), r, c) == SubByte(Cell(s, r, (c + r) % 4))
  {
    hide SubByte, SubBytes, ShiftRows;
    ShiftRowsCell(SubBytes(s), r, c);
    SubBytesCell(s, r, (c + r) % 4);
  }

  /** Coefficient r of the product of two polynomials modulo x^4 + 1, the second one being the
      polynomial of MixColumns. */
  function Convolution(c: Column, r: nat): byte
    requires r < 4
  {
    Sum4(Mul(c.b0, MixCoefficient(r)), Mul(c.b1, MixCoefficient((r + 3) % 4)),
         Mul(c.b2, MixCoefficient((r + 2) % 4)), Mul(c.b3, MixCoefficient((r + 1) % 4)))
  }

  lemma MixRow(c: Column, r: nat)
    requires r < 4
    ensures Row(Mix(c), r) == Convolution(c, r)
  {
    hide Mul, Sum4;
    MulByOne(c.b0);
    MulByOne(c.b1);
    MulByOne(c.b2);
    MulByOne(c.b3);
    SumRotate3(c.b0, Mul(c.b1, 0x02), Mul(c.b2, 0x03), c.b3);
    SumRotate2(c.b0, c.b1, Mul(c.b2, 0x02), Mul(c.b3, 0x03));
    SumRotate1(Mul(c.b0, 0x03), c.b1, c.b2, Mul(c.b3, 0x02));
  }

  function Diagonal(s: State, c: nat): Column
    requires c < 4
  {
    Column(SubByte(Cell(s, 0, c)), SubByte(Cell(s, 1, (c + 1) % 4)),
           SubByte(Cell(s, 2, (c + 2) % 4)), SubByte(Cell(s, 3, (c + 3) % 4)))
  }

  lemma MixCell(s: State, r: nat, c: nat)
    requires r < 4 && c < 4
    ensures Cell(MixColumns(Scramble(s)), r, c) == Convolution(Diagonal(s, c), r)
  {
    hide SubByte, Convolution, Mix, Scramble;
    var t := Scramble(s);
    ScrambleCell(s, 0, c);
    ScrambleCell(s, 1, c);
    ScrambleCell(s, 2, c);
    ScrambleCell(s, 3, c);
    MixRow(t.c0, r);
    MixRow(t.c1, r);
    MixRow(t.c2, r);
    MixRow(t.c3, r);
  }

  /** Column c takes word `at + c`, its row r byte r of that word. */
  lemma AddRoundKeyCell(s: State, w: seq<word>, at: nat, r: nat, c: nat)
    requires at + 4 <= |w| && r < 4 && c < 4
    ensures Cell(AddRoundKey(s, w, at), r, c) == Add(Cell(s, r, c), KeyByte(w[at + c], r))
  {
    hide Add, KeyByte, AddColumn, WordColumn, Row;
    match c
    case 0 => AddedRow(s.c0, w[at], r);
    case 1 => AddedRow(s.c1, w[at + 1], r);
    case 2 => AddedRow(s.c2, w[at + 2], r);
    case _ => AddedRow(s.c3, w[at + 3], r);
  }

  lemma AddedRow(c: Column, w: word, r: nat)
    requires r < 4
    ensures Row(AddColumn(c, WordColumn(w)), r) == Add(Row(c, r), KeyByte(w, r))
  {
    hide Add;
    assert (w >> 24) & 0xff == w >> 24;
  }

  // ---------- The rounds ----------

  /** The state before the first round, section 5.1 of FIPS 197. */
  lemma FirstCell(b: Block, w: seq<word>, r: nat, c: nat)
    requires 4 <= |w| && r < 4 && c < 4
    ensures Cell(Forward(ToState(b), w, 0), r, c) == Add(b[r + 4 * c], KeyByte(w[c], r))
  {
    hide Add, KeyByte, AddRoundKey;
    AddRoundKeyCell(ToState(b), w, 0, r, c);
    BlockCell(b, ToState(b), r, c);
  }

  /** One full round as a single formula: each byte is a sum of multiples of four substituted bytes,
      one from each row and each column, and of a byte of the schedule. */
  lemma RoundCell(s: State, w: seq<word>, n: nat, r: nat, c: nat)
    requires n >= 1 && 4 * (n + 1) <= |w| && r < 4 && c < 4
    ensures var p := Forward(s, w, n - 1);
            Cell(Forward(s, w, n), r, c) ==
            Add(Sum4(Mul(SubByte(Cell(p, 0, c)), MixCoefficient(r)),
                     Mul(SubByte(Cell(p, 1, (c + 1) % 4)), MixCoefficient((r + 3) % 4)),
                     Mul(SubByte(Cell(p, 2, (c + 2) % 4)), MixCoefficient((r + 2) % 4)),
                     Mul(SubByte(Cell(p, 3, (c + 3) % 4)), MixCoefficient((r + 1) % 4))),
                KeyByte(w[4 * n + c], r))
  {
    hide Add, Sum4, Mul, SubByte, KeyByte, AddRoundKey, MixColumns, Scramble, Cell, MixCoefficient;
    var p := Forward(s, w, n - 1);
    AddRoundKeyCell(MixColumns(Scramble(p)), w, 4 * n, r, c);
    MixCell(p, r, c);
  }

  /** The last round leaves out the multiplication, and its bytes are those of the ciphertext. */
  lemma LastCell(b: Block, w: seq<word>, keysize: int, r: nat, c: nat)
    requires 4 * (EncryptRounds(keysize) + 1) <= |w| && r < 4 && c < 4
    ensures var n := EncryptRounds(keysize);
            Encrypt(b, w, keysize)[r + 4 * c] ==
            Add(SubByte(Cell(Forward(ToState(b), w, n - 1), r, (c + r) % 4)), KeyByte(w[4 * n + c], r))
  {
    hide Add, SubByte, KeyByte, AddRoundKey, Scramble, Cell, Forward, ToState, FromState;
    var n := EncryptRounds(keysize);
    var p := Forward(ToState(b), w, n - 1);
    BlockCell(b, AddRoundKey(Scramble(p), w, 4 * n), r, c);
    AddRoundKeyCell(Scramble(p), w, 4 * n, r, c);
    ScrambleCell(p, r, c);
  }

  // ---------- The key enters ----------

  lemma {:induction false} ForwardUses(s: State, v: seq<word>, w: seq<word>, n: nat)
    requires 4 * (n + 1) <= |v| && 4 * (n + 1) <= |w|
    requires forall i :: 0 <= i < 4 * (n + 1) ==> v[i] == w[i]
    ensures Forward(s, v, n) == Forward(s, w, n)
  {
    hide AddColumn, WordColumn, MixColumns, Scramble;
    if n > 0 {
      ForwardUses(s, v, w, n - 1);
    }
  }

  /** Changing the last four words of the schedule changes the ciphertext by exactly the bytes by
      which they differ. */
  lemma LastWordsShow(b: Block, v: seq<word>, w: seq<word>, keysize: int, r: nat, c: nat)
    requires var n := EncryptRounds(keysize);
             4 * (n + 1) <= |v| && 4 * (n + 1) <= |w| && forall i :: 0 <= i < 4 * n ==> v[i] == w[i]
    requires r < 4 && c < 4
    ensures var at := 4 * EncryptRounds(keysize) + c;
            Add(Encrypt(b, v, keysize)[r + 4 * c], Encrypt(b, w, keysize)[r + 4 * c]) ==
            Add(KeyByte(v[at], r), KeyByte(w[at], r))
  {
    hide SubByte, KeyByte, Encrypt, Cell, Forward;
    var n := EncryptRounds(keysize);
    LastCell(b, v, keysize, r, c);
    LastCell(b, w, keysize, r, c);
    ForwardUses(ToState(b), v, w, n - 1);
  }

  /** Changing the first four words is the same as changing the block by their bytes. */
  lemma FirstWordsShow(b: Block, d: Block, v: seq<word>, w: seq<word>, keysize: int)
    requires var n := EncryptRounds(keysize);
             4 * (n + 1) <= |v| == |w| && forall i :: 4 <= i < |w| ==> v[i] == w[i]
    requires forall r: nat, c: nat :: r < 4 && c < 4 ==>
               Add(b[r + 4 * c], d[r + 4 * c]) == Add(KeyByte(v[c], r), KeyByte(w[c], r))
    ensures Encrypt(b, v, keysize) == Encrypt(d, w, keysize)
  {
    hide ToState, FromState, Forward, AddRoundKey, KeyByte, Cell, Add;
    var n := EncryptRounds(keysize);
    var s, t := Forward(ToState(b), v, 0), Forward(ToState(d), w, 0);
    forall r: nat, c: nat | r < 4 && c < 4
      ensures Cell(s, r, c) == Cell(t, r, c)
    {
      FirstCell(b, v, r, c);
      FirstCell(d, w, r, c);
      assert Add(b[r + 4 * c], d[r + 4 * c]) == Add(KeyByte(v[c], r), KeyByte(w[c], r));
      Crossed(b[r + 4 * c], d[r + 4 * c], KeyByte(v[c], r), KeyByte(w[c], r));
    }
    EqualByCells(s, t);
    SameRounds(ToState(b), ToState(d), v, w, n - 1);
    SameKey(Scramble(Forward(ToState(b), v, n - 1)), v, w, 4 * n);
  }

  lemma Crossed(a: byte, b: byte, k: byte, l: byte)
    requires Add(a, b) == Add(k, l)
    ensures Add(a, k) == Add(b, l)
  {
    assert a ^ k == (a ^ b) ^ (b ^ k) == (k ^ l) ^ (b ^ k) == b ^ l;
  }

  lemma EqualByCells(s: State, t: State)
    requires forall r: nat, c: nat :: r < 4 && c < 4 ==> Cell(s, r, c) == Cell(t, r, c)
    ensures s == t
  {
    assert Cell(s, 0, 0) == Cell(t, 0, 0) && Cell(s, 1, 0) == Cell(t, 1, 0) && Cell(s, 2, 0) == Cell(t, 2, 0) &&
           Cell(s, 3, 0) == Cell(t, 3, 0) && Cell(s, 0, 1) == Cell(t, 0, 1) && Cell(s, 1, 1) == Cell(t, 1, 1) &&
           Cell(s, 2, 1) == Cell(t, 2, 1) && Cell(s, 3, 1) == Cell(t, 3, 1) && Cell(s, 0, 2) == Cell(t, 0, 2) &&
           Cell(s, 1, 2) == Cell(t, 1, 2) && Cell(s, 2, 2) == Cell(t, 2, 2) && Cell(s, 3, 2) == Cell(t, 3, 2) &&
           Cell(s, 0, 3) == Cell(t, 0, 3) && Cell(s, 1, 3) == Cell(t, 1, 3) && Cell(s, 2, 3) == Cell(t, 2, 3) &&
           Cell(s, 3, 3) == Cell(t, 3, 3);
  }

  lemma SameKey(s: State, v: seq<word>, w: seq<word>, at: nat)
    requires at + 4 <= |v| == |w| && forall i :: at <= i < at + 4 ==> v[i] == w[i]
    ensures AddRoundKey(s, v, at) == AddRoundKey(s, w, at)
  {
    hide AddColumn, WordColumn;
  }

  lemma {:induction false} SameRounds(s: State, t: State, v: seq<word>, w: seq<word>, n: nat)
    requires 4 * (n + 1) <= |v| == |w| && forall i :: 4 <= i < |w| ==> v[i] == w[i]
    requires Forward(s, v, 0) == Forward(t, w, 0)
    ensures Forward(s, v, n) == Forward(t, w, n)
  {
    hide AddRoundKey, MixColumns, Scramble;
    if n > 0 {
      SameRounds(s, t, v, w, n - 1);
      SameKey(MixColumns(Scramble(Forward(s, v, n - 1))), v, w, 4 * n);
    }
  }

  // ---------- The schedule ----------

  /** Key size, words of the key and rounds, figure 4 of FIPS 197. */
  lemma SizesOf(keysize: int)
    requires SupportedKeySize(keysize)
    ensures KeyWords(keysize) == keysize / 32 && EncryptRounds(keysize) == KeyWords(keysize) + 6
    ensures ScheduleLength(keysize) == 4 * EncryptRounds(keysize) + 4
  {
  }

  /** The schedule begins with the bytes of the key. */
  lemma KeyBytes(key: seq<byte>, keysize: int, i: nat, r: nat)
    requires SupportedKeySize(keysize) && |key| == 4 * KeyWords(keysize) && i < KeyWords(keysize) && r < 4
    ensures i < |Expand(key, keysize)| && KeyByte(Expand(key, keysize)[i], r) == key[4 * i + r]
  {
    hide Pack, KeyByte, Temp;
    ScheduleStart(key, KeyWords(keysize), i);
    PackedByte(key[4 * i], key[4 * i + 1], key[4 * i + 2], key[4 * i + 3], r);
  }

  lemma PackedByte(a: byte, b: byte, c: byte, d: byte, r: nat)
    requires r < 4
    ensures KeyByte(Pack(a, b, c, d), r) == match r case 0 => a case 1 => b case 2 => c case _ => d
  {
    ByteOfColumn(Pack(a, b, c, d), r);
    WordColumnInverse(0, Column(a, b, c, d));
  }

  lemma ByteOfColumn(w: word, r: nat)
    requires r < 4
    ensures KeyByte(w, r) == Row(WordColumn(w), r)
  {
    assert (w >> 24) & 0xff == w >> 24;
  }

  lemma XorByte(x: word, y: word, r: nat)
    requires r < 4
    ensures KeyByte(XorWords(x, y), r) == Add(KeyByte(x, r), KeyByte(y, r))
  {
    match r
    case 0 => XorTop(x, y);
    case 1 => XorSecond(x, y);
    case 2 => XorThird(x, y);
    case _ => XorLow(x, y);
  }

  lemma XorTop(x: word, y: word)
    ensures (((x ^ y) >> 24) & 0xff) as byte == (((x >> 24) & 0xff) as byte) ^ (((y >> 24) & 0xff) as byte)
  {
  }

  lemma XorSecond(x: word, y: word)
    ensures (((x ^ y) >> 16) & 0xff) as byte == (((x >> 16) & 0xff) as byte) ^ (((y >> 16) & 0xff) as byte)
  {
  }

  lemma XorThird(x: word, y: word)
    ensures (((x ^ y) >> 8) & 0xff) as byte == (((x >> 8) & 0xff) as byte) ^ (((y >> 8) & 0xff) as byte)
  {
  }

  lemma XorLow(x: word, y: word)
    ensures ((x ^ y) & 0xff) as byte == ((x & 0xff) as byte) ^ ((y & 0xff) as byte)
  {
  }

  /** Byte r of what is added to the word nk places before: the previous word, rotated by one byte to
      the left, substituted, and with a power of x on its first byte at every multiple of nk. */
  function AddedByte(previous: word, i: nat, nk: nat, r: nat): byte
    requires nk > 0 && i >= nk && r < 4
  {
    if i % nk == 0 then
      Add(SubByte(KeyByte(previous, (r + 1) % 4)), if r == 0 then XPow(1, i / nk - 1) else 0)
    else if nk > 6 && i % nk == 4 then SubByte(KeyByte(previous, r))
    else KeyByte(previous, r)
  }

  lemma TempByte(previous: word, i: nat, nk: nat, r: nat)
    requires nk > 0 && i >= nk && r < 4
    ensures KeyByte(Temp(previous, i, nk), r) == AddedByte(previous, i, nk, r)
  {
    hide SubByte, KeyByte, XPow, Pack, WordColumn;
    ByteOfColumn(previous, r);
    ByteOfColumn(previous, (r + 1) % 4);
    if i % nk == 0 {
      var c := AddRcon(SubColumn(RotColumn(WordColumn(previous))), i / nk - 1);
      PackedByte(c.b0, c.b1, c.b2, c.b3, r);
      AddZero(SubByte(KeyByte(previous, (r + 1) % 4)));
    } else {
      var c := SubColumn(WordColumn(previous));
      PackedByte(c.b0, c.b1, c.b2, c.b3, r);
    }
  }

  lemma AddZero(a: byte)
    ensures Add(a, 0) == a
  {
  }

  /** Section 5.2 of FIPS 197 byte by byte. */
  lemma NextWordBytes(key: seq<byte>, keysize: int, i: nat, r: nat)
    requires SupportedKeySize(keysize) && |key| == 4 * KeyWords(keysize)
    requires KeyWords(keysize) <= i < ScheduleLength(keysize) && r < 4
    ensures var w, nk := Expand(key, keysize), KeyWords(keysize);
            KeyByte(w[i], r) == Add(KeyByte(w[i - nk], r), AddedByte(w[i - 1], i, nk, r))
  {
    hide KeyByte, AddedByte, Temp, XorWords, Add;
    var nk := KeyWords(keysize);
    var previous := ScheduleWord(key, nk, i - 1);
    ScheduleStep(key, nk, i);
    XorByte(ScheduleWord(key, nk, i - nk), Temp(previous, i, nk), r);
    TempByte(previous, i, nk, r);
  }
}

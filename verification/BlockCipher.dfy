/**
 The block functions as the library runs them: the state is a 4x4 byte matrix changed in
 place, the multiplications are table lookups, and the rounds are unrolled.  Each method is
 shown to compute the function of module Cipher that section 5 of FIPS 197 describes.
 */
module BlockCipher {
  import opened Bytes
  import opened GaloisField
  import opened SubstitutionBox
  import opened ColumnMatrix
  import Cipher

  ghost predicate IsMatrix(state: array2<byte>) {
    state.Length0 == 4 && state.Length1 == 4
  }

  /** Column c of the matrix: elements [0][c] to [3][c]. */
  function ColumnOf(state: array2<byte>, c: nat): Column
    requires IsMatrix(state) && c < 4
    reads state
  {
    Column(state[0, c], state[1, c], state[2, c], state[3, c])
  }

  function StateOf(state: array2<byte>): Cipher.State
    requires IsMatrix(state)
    reads state
  {
    Cipher.State(ColumnOf(state, 0), ColumnOf(state, 1), ColumnOf(state, 2), ColumnOf(state, 3))
  }

  /** The words of a key array that a key size uses. */
  ghost function Schedule(key: array<word>, keysize: int): seq<word>
    requires 4 * (Cipher.EncryptRounds(keysize) + 1) <= key.Length
    reads key
  {
    key[..4 * (Cipher.EncryptRounds(keysize) + 1)]
  }

  // ---------- Steps ----------

  /** The bytes of the word, the most significant one on top, have been added to the column. */
  predicate Keyed(before: Column, after: Column, w: word) {
    after.b0 == before.b0 ^ ((w >> 24) as byte) && after.b1 == before.b1 ^ (((w >> 16) & 0xff) as byte) &&
    after.b2 == before.b2 ^ (((w >> 8) & 0xff) as byte) && after.b3 == before.b3 ^ ((w & 0xff) as byte)
  }

  /** One column of AddRoundKey. */
  method AddWord(state: array2<byte>, c: nat, w: word)
    requires IsMatrix(state) && c < 4
    modifies state
    ensures ColumnOf(state, c) == Cipher.AddColumn(old(ColumnOf(state, c)), Cipher.WordColumn(w))
    ensures Keyed(old(ColumnOf(state, c)), ColumnOf(state, c), w)
    ensures forall d: nat :: d < 4 && d != c ==> ColumnOf(state, d) == old(ColumnOf(state, d))
  {
    var subkey := [(w >> 24) as byte, ((w >> 16) & 0xff) as byte, ((w >> 8) & 0xff) as byte, (w & 0xff) as byte];
    state[0, c] := Add(state[0, c], subkey[0]);
    state[1, c] := Add(state[1, c], subkey[1]);
    state[2, c] := Add(state[2, c], subkey[2]);
    state[3, c] := Add(state[3, c], subkey[3]);
  }

  /** `w` is the part of the key array that holds the schedule. */
  method AddRoundKey(state: array2<byte>, key: array<word>, at: nat, ghost w: seq<word>)
    requires IsMatrix(state) && w <= key[..] && at + 4 <= |w|
    modifies state
    ensures StateOf(state) == Cipher.AddRoundKey(old(StateOf(state)), w, at)
    ensures forall c: nat :: c < 4 ==> Keyed(old(ColumnOf(state, c)), ColumnOf(state, c), key[at + c])
  {
    hide Cipher.AddColumn, Cipher.WordColumn, Keyed;
    AddWord(state, 0, key[at]);
    AddWord(state, 1, key[at + 1]);
    AddWord(state, 2, key[at + 2]);
    AddWord(state, 3, key[at + 3]);
  }

  /** Row r of the matrix, packed like a column. */
  function RowOf(state: array2<byte>, r: nat): Column
    requires IsMatrix(state) && r < 4
    reads state
  {
    Column(state[r, 0], state[r, 1], state[r, 2], state[r, 3])
  }

  twostate predicate OtherRowsKept(state: array2<byte>, r: nat)
    requires IsMatrix(state)
    reads state
  {
    forall q: nat :: q < 4 && q != r ==> RowOf(state, q) == old(RowOf(state, q))
  }

  /** One row of SubBytes. */
  method SubRow(state: array2<byte>, r: nat)
    requires IsMatrix(state) && r < 4
    modifies state
    ensures RowOf(state, r) == Cipher.SubColumn(old(RowOf(state, r)))
    ensures OtherRowsKept(state, r)
  {
    hide SubByte;
    state[r, 0] := SubByte(state[r, 0]);
    state[r, 1] := SubByte(state[r, 1]);
    state[r, 2] := SubByte(state[r, 2]);
    state[r, 3] := SubByte(state[r, 3]);
  }

  method SubBytes(state: array2<byte>)
    requires IsMatrix(state)
    modifies state
    ensures StateOf(state) == Cipher.SubBytes(old(StateOf(state)))
  {
    hide SubByte;
    SubRow(state, 0);
    SubRow(state, 1);
    SubRow(state, 2);
    SubRow(state, 3);
  }

  /** One row of InvSubBytes. */
  method InvSubRow(state: array2<byte>, r: nat)
    requires IsMatrix(state) && r < 4
    modifies state
    ensures RowOf(state, r) == Cipher.InvSubColumn(old(RowOf(state, r)))
    ensures OtherRowsKept(state, r)
  {
    hide InvSubByte;
    state[r, 0] := InvSubByte(state[r, 0]);
    state[r, 1] := InvSubByte(state[r, 1]);
    state[r, 2] := InvSubByte(state[r, 2]);
    state[r, 3] := InvSubByte(state[r, 3]);
  }

  method InvSubBytes(state: array2<byte>)
    requires IsMatrix(state)
    modifies state
    ensures StateOf(state) == Cipher.InvSubBytes(old(StateOf(state)))
  {
    hide InvSubByte;
    InvSubRow(state, 0);
    InvSubRow(state, 1);
    InvSubRow(state, 2);
    InvSubRow(state, 3);
  }

  /** Row 1 moves left by one place. */
  method ShiftRow1(state: array2<byte>)
    requires IsMatrix(state)
    modifies state
    ensures var row := old(RowOf(state, 1)); RowOf(state, 1) == Column(row.b1, row.b2, row.b3, row.b0)
    ensures OtherRowsKept(state, 1)
  {
    var t := state[1, 0];
    state[1, 0] := state[1, 1];
    state[1, 1] := state[1, 2];
    state[1, 2] := state[1, 3];
    state[1, 3] := t;
  }

  /** Row 2 moves left by two places. */
  method ShiftRow2(state: array2<byte>)
    requires IsMatrix(state)
    modifies state
    ensures var row := old(RowOf(state, 2)); RowOf(state, 2) == Column(row.b2, row.b3, row.b0, row.b1)
    ensures OtherRowsKept(state, 2)
  {
    var t := state[2, 0];
    state[2, 0] := state[2, 2];
    state[2, 2] := t;
    t := state[2, 1];
    state[2, 1] := state[2, 3];
    state[2, 3] := t;
  }

  /** Row 3 moves left by three places. */
  method ShiftRow3(state: array2<byte>)
    requires IsMatrix(state)
    modifies state
    ensures var row := old(RowOf(state, 3)); RowOf(state, 3) == Column(row.b3, row.b0, row.b1, row.b2)
    ensures OtherRowsKept(state, 3)
  {
    var t := state[3, 0];
    state[3, 0] := state[3, 3];
    state[3, 3] := state[3, 2];
    state[3, 2] := state[3, 1];
    state[3, 1] := t;
  }

  method ShiftRows(state: array2<byte>)
    requires IsMatrix(state)
    modifies state
    ensures StateOf(state) == Cipher.ShiftRows(old(StateOf(state)))
  {
    ghost var r0, r1, r2, r3 := RowOf(state, 0), RowOf(state, 1), RowOf(state, 2), RowOf(state, 3);
    ShiftRow1(state);
    assert RowOf(state, 0) == r0 && RowOf(state, 2) == r2 && RowOf(state, 3) == r3;
    ShiftRow2(state);
    assert RowOf(state, 0) == r0 && RowOf(state, 3) == r3;
    ShiftRow3(state);
    assert RowOf(state, 0) == r0;
  }

  /** Row 1 moves right by one place. */
  method InvShiftRow1(state: array2<byte>)
    requires IsMatrix(state)
    modifies state
    ensures var row := old(RowOf(state, 1)); RowOf(state, 1) == Column(row.b3, row.b0, row.b1, row.b2)
    ensures OtherRowsKept(state, 1)
  {
    var t := state[1, 3];
    state[1, 3] := state[1, 2];
    state[1, 2] := state[1, 1];
    state[1, 1] := state[1, 0];
    state[1, 0] := t;
  }

  /** Row 2 moves right by two places. */
  method InvShiftRow2(state: array2<byte>)
    requires IsMatrix(state)
    modifies state
    ensures var row := old(RowOf(state, 2)); RowOf(state, 2) == Column(row.b2, row.b3, row.b0, row.b1)
    ensures OtherRowsKept(state, 2)
  {
    var t := state[2, 3];
    state[2, 3] := state[2, 1];
    state[2, 1] := t;
    t := state[2, 2];
    state[2, 2] := state[2, 0];
    state[2, 0] := t;
  }

  /** Row 3 moves right by three places. */
  method InvShiftRow3(state: array2<byte>)
    requires IsMatrix(state)
    modifies state
    ensures var row := old(RowOf(state, 3)); RowOf(state, 3) == Column(row.b1, row.b2, row.b3, row.b0)
    ensures OtherRowsKept(state, 3)
  {
    var t := state[3, 3];
    state[3, 3] := state[3, 0];
    state[3, 0] := state[3, 1];
    state[3, 1] := state[3, 2];
    state[3, 2] := t;
  }

  method InvShiftRows(state: array2<byte>)
    requires IsMatrix(state)
    modifies state
    ensures StateOf(state) == Cipher.InvShiftRows(old(StateOf(state)))
  {
    ghost var r0, r1, r2, r3 := RowOf(state, 0), RowOf(state, 1), RowOf(state, 2), RowOf(state, 3);
    InvShiftRow1(state);
    assert RowOf(state, 0) == r0 && RowOf(state, 2) == r2 && RowOf(state, 3) == r3;
    InvShiftRow2(state);
    assert RowOf(state, 0) == r0 && RowOf(state, 3) == r3;
    InvShiftRow3(state);
    assert RowOf(state, 0) == r0;
  }

  lemma ChainIsSum(a: byte, b: byte, c: byte, d: byte)
    ensures Add(Add(Add(a, b), c), d) == Sum4(a, b, c, d)
  {
    hide Add;
    AddAssociates(Add(a, b), c, d);
  }

  /** The table expressions of MixColumns, row by row, are the matrix product. */
  lemma MixRows(c: Column)
    ensures Add(Add(Add(GfMul(c.b0, 0), GfMul(c.b1, 1)), c.b2), c.b3) == Mix(c).b0
    ensures Add(Add(Add(c.b0, GfMul(c.b1, 0)), GfMul(c.b2, 1)), c.b3) == Mix(c).b1
    ensures Add(Add(Add(c.b0, c.b1), GfMul(c.b2, 0)), GfMul(c.b3, 1)) == Mix(c).b2
    ensures Add(Add(Add(GfMul(c.b0, 1), c.b1), c.b2), GfMul(c.b3, 0)) == Mix(c).b3
  {
    hide Add, GfMul, Mul, Sum4;
    TableIsMultiplication(c.b0, 0);
    TableIsMultiplication(c.b0, 1);
    TableIsMultiplication(c.b1, 0);
    TableIsMultiplication(c.b1, 1);
    TableIsMultiplication(c.b2, 0);
    TableIsMultiplication(c.b2, 1);
    TableIsMultiplication(c.b3, 0);
    TableIsMultiplication(c.b3, 1);
    ChainIsSum(Mul(c.b0, 0x02), Mul(c.b1, 0x03), c.b2, c.b3);
    ChainIsSum(c.b0, Mul(c.b1, 0x02), Mul(c.b2, 0x03), c.b3);
    SumRotate3(c.b0, Mul(c.b1, 0x02), Mul(c.b2, 0x03), c.b3);
    ChainIsSum(c.b0, c.b1, Mul(c.b2, 0x02), Mul(c.b3, 0x03));
    SumRotate2(c.b0, c.b1, Mul(c.b2, 0x02), Mul(c.b3, 0x03));
    ChainIsSum(Mul(c.b0, 0x03), c.b1, c.b2, Mul(c.b3, 0x02));
    SumRotate1(Mul(c.b0, 0x03), c.b1, c.b2, Mul(c.b3, 0x02));
  }

  /** The table expressions of InvMixColumns, row by row, are the matrix product. */
  lemma InvMixRows(c: Column)
    ensures Add(Add(Add(GfMul(c.b0, 5), GfMul(c.b1, 3)), GfMul(c.b2, 4)), GfMul(c.b3, 2)) == InvMix(c).b0
    ensures Add(Add(Add(GfMul(c.b0, 2), GfMul(c.b1, 5)), GfMul(c.b2, 3)), GfMul(c.b3, 4)) == InvMix(c).b1
    ensures Add(Add(Add(GfMul(c.b0, 4), GfMul(c.b1, 2)), GfMul(c.b2, 5)), GfMul(c.b3, 3)) == InvMix(c).b2
    ensures Add(Add(Add(GfMul(c.b0, 3), GfMul(c.b1, 4)), GfMul(c.b2, 2)), GfMul(c.b3, 5)) == InvMix(c).b3
  {
    hide Add, GfMul, Mul, Sum4;
    TableIsMultiplication(c.b0, 2);
    TableIsMultiplication(c.b0, 3);
    TableIsMultiplication(c.b0, 4);
    TableIsMultiplication(c.b0, 5);
    TableIsMultiplication(c.b1, 2);
    TableIsMultiplication(c.b1, 3);
    TableIsMultiplication(c.b1, 4);
    TableIsMultiplication(c.b1, 5);
    TableIsMultiplication(c.b2, 2);
    TableIsMultiplication(c.b2, 3);
    TableIsMultiplication(c.b2, 4);
    TableIsMultiplication(c.b2, 5);
    TableIsMultiplication(c.b3, 2);
    TableIsMultiplication(c.b3, 3);
    TableIsMultiplication(c.b3, 4);
    TableIsMultiplication(c.b3, 5);
    ChainIsSum(Mul(c.b0, 0x0e), Mul(c.b1, 0x0b), Mul(c.b2, 0x0d), Mul(c.b3, 0x09));
    ChainIsSum(Mul(c.b0, 0x09), Mul(c.b1, 0x0e), Mul(c.b2, 0x0b), Mul(c.b3, 0x0d));
    SumRotate3(Mul(c.b0, 0x09), Mul(c.b1, 0x0e), Mul(c.b2, 0x0b), Mul(c.b3, 0x0d));
    ChainIsSum(Mul(c.b0, 0x0d), Mul(c.b1, 0x09), Mul(c.b2, 0x0e), Mul(c.b3, 0x0b));
    SumRotate2(Mul(c.b0, 0x0d), Mul(c.b1, 0x09), Mul(c.b2, 0x0e), Mul(c.b3, 0x0b));
    ChainIsSum(Mul(c.b0, 0x0b), Mul(c.b1, 0x0d), Mul(c.b2, 0x09), Mul(c.b3, 0x0e));
    SumRotate1(Mul(c.b0, 0x0b), Mul(c.b1, 0x0d), Mul(c.b2, 0x09), Mul(c.b3, 0x0e));
  }

  /** One column of MixColumns, each product read from the table. */
  method MixColumn(state: array2<byte>, c: nat)
    requires IsMatrix(state) && c < 4
    modifies state
    ensures ColumnOf(state, c) == Mix(old(ColumnOf(state, c)))
    ensures forall d: nat :: d < 4 && d != c ==> ColumnOf(state, d) == old(ColumnOf(state, d))
  {
    hide Add, GfMul, Mix, InvMix;
    var col := [state[0, c], state[1, c], state[2, c], state[3, c]];
    state[0, c] := GfMul(col[0], 0);
    state[0, c] := Add(state[0, c], GfMul(col[1], 1));
    state[0, c] := Add(state[0, c], col[2]);
    state[0, c] := Add(state[0, c], col[3]);
    state[1, c] := col[0];
    state[1, c] := Add(state[1, c], GfMul(col[1], 0));
    state[1, c] := Add(state[1, c], GfMul(col[2], 1));
    state[1, c] := Add(state[1, c], col[3]);
    state[2, c] := col[0];
    state[2, c] := Add(state[2, c], col[1]);
    state[2, c] := Add(state[2, c], GfMul(col[2], 0));
    state[2, c] := Add(state[2, c], GfMul(col[3], 1));
    state[3, c] := GfMul(col[0], 1);
    state[3, c] := Add(state[3, c], col[1]);
    state[3, c] := Add(state[3, c], col[2]);
    state[3, c] := Add(state[3, c], GfMul(col[3], 0));
    MixRows(old(ColumnOf(state, c)));
  }

  method MixColumns(state: array2<byte>)
    requires IsMatrix(state)
    modifies state
    ensures StateOf(state) == Cipher.MixColumns(old(StateOf(state)))
  {
    hide Mix;
    MixColumn(state, 0);
    MixColumn(state, 1);
    MixColumn(state, 2);
    MixColumn(state, 3);
  }

  /** One column of InvMixColumns, each product read from the table. */
  method InvMixColumn(state: array2<byte>, c: nat)
    requires IsMatrix(state) && c < 4
    modifies state
    ensures ColumnOf(state, c) == InvMix(old(ColumnOf(state, c)))
    ensures forall d: nat :: d < 4 && d != c ==> ColumnOf(state, d) == old(ColumnOf(state, d))
  {
    hide Add, GfMul, Mix, InvMix;
    var col := [state[0, c], state[1, c], state[2, c], state[3, c]];
    state[0, c] := GfMul(col[0], 5);
    state[0, c] := Add(state[0, c], GfMul(col[1], 3));
    state[0, c] := Add(state[0, c], GfMul(col[2], 4));
    state[0, c] := Add(state[0, c], GfMul(col[3], 2));
    state[1, c] := GfMul(col[0], 2);
    state[1, c] := Add(state[1, c], GfMul(col[1], 5));
    state[1, c] := Add(state[1, c], GfMul(col[2], 3));
    state[1, c] := Add(state[1, c], GfMul(col[3], 4));
    state[2, c] := GfMul(col[0], 4);
    state[2, c] := Add(state[2, c], GfMul(col[1], 2));
    state[2, c] := Add(state[2, c], GfMul(col[2], 5));
    state[2, c] := Add(state[2, c], GfMul(col[3], 3));
    state[3, c] := GfMul(col[0], 3);
    state[3, c] := Add(state[3, c], GfMul(col[1], 4));
    state[3, c] := Add(state[3, c], GfMul(col[2], 2));
    state[3, c] := Add(state[3, c], GfMul(col[3], 5));
    InvMixRows(old(ColumnOf(state, c)));
  }

  method InvMixColumns(state: array2<byte>)
    requires IsMatrix(state)
    modifies state
    ensures StateOf(state) == Cipher.InvMixColumns(old(StateOf(state)))
  {
    hide InvMix;
    InvMixColumn(state, 0);
    InvMixColumn(state, 1);
    InvMixColumn(state, 2);
    InvMixColumn(state, 3);
  }

  // ---------- (En/De)crypt ----------

  /** Copies one column of the input into the matrix. */
  method LoadColumn(input: array<byte>, state: array2<byte>, c: nat)
    requires IsMatrix(state) && c < 4 && input.Length >= 16
    modifies state
    ensures ColumnOf(state, c) == Column(input[4 * c], input[4 * c + 1], input[4 * c + 2], input[4 * c + 3])
    ensures forall d: nat :: d < 4 && d != c ==> ColumnOf(state, d) == old(ColumnOf(state, d))
  {
    state[0, c] := input[4 * c];
    state[1, c] := input[4 * c + 1];
    state[2, c] := input[4 * c + 2];
    state[3, c] := input[4 * c + 3];
  }

  method LoadState(input: array<byte>, state: array2<byte>)
    requires IsMatrix(state) && input.Length >= 16
    modifies state
    ensures StateOf(state) == Cipher.ToState(input[..16])
  {
    LoadColumn(input, state, 0);
    LoadColumn(input, state, 1);
    LoadColumn(input, state, 2);
    LoadColumn(input, state, 3);
  }

  /** Copies one column of the matrix to its four output bytes. */
  method StoreColumn(state: array2<byte>, output: array<byte>, c: nat)
    requires IsMatrix(state) && c < 4 && output.Length >= 16
    modifies output
    ensures Column(output[4 * c], output[4 * c + 1], output[4 * c + 2], output[4 * c + 3]) == ColumnOf(state, c)
    ensures forall i :: 0 <= i < output.Length && !(4 * c <= i < 4 * c + 4) ==> output[i] == old(output[i])
  {
    output[4 * c] := state[0, c];
    output[4 * c + 1] := state[1, c];
    output[4 * c + 2] := state[2, c];
    output[4 * c + 3] := state[3, c];
  }

  method StoreState(state: array2<byte>, output: array<byte>)
    requires IsMatrix(state) && output.Length >= 16
    modifies output
    ensures output[..16] == Cipher.FromState(StateOf(state))
    ensures output[16..] == old(output[16..])
  {
    StoreColumn(state, output, 0);
    StoreColumn(state, output, 1);
    StoreColumn(state, output, 2);
    StoreColumn(state, output, 3);
    Cipher.BlockStateRoundTrip(output[..16], StateOf(state));
    assert Cipher.ToState(output[..16]) == StateOf(state);
  }

  /** One full round: SubBytes, ShiftRows, MixColumns and AddRoundKey at word `at`. */
  method FullRound(state: array2<byte>, key: array<word>, at: nat, ghost w: seq<word>)
    requires IsMatrix(state) && w <= key[..] && at + 4 <= |w|
    modifies state
    ensures StateOf(state) ==
            Cipher.AddRoundKey(Cipher.MixColumns(Cipher.Scramble(old(StateOf(state)))), w, at)
  {
    hide Cipher.SubBytes, Cipher.ShiftRows, Cipher.MixColumns, Cipher.AddRoundKey, StateOf;
    SubBytes(state);
    ShiftRows(state);
    MixColumns(state);
    AddRoundKey(state, key, at, w);
  }

  /** One full round of the inverse cipher. */
  method FullInvRound(state: array2<byte>, key: array<word>, at: nat, ghost w: seq<word>)
    requires IsMatrix(state) && w <= key[..] && at + 4 <= |w|
    modifies state
    ensures StateOf(state) ==
            Cipher.InvMixColumns(Cipher.AddRoundKey(Cipher.Unscramble(old(StateOf(state))), w, at))
  {
    hide Cipher.InvSubBytes, Cipher.InvShiftRows, Cipher.InvMixColumns, Cipher.AddRoundKey, StateOf;
    InvShiftRows(state);
    InvSubBytes(state);
    AddRoundKey(state, key, at, w);
    InvMixColumns(state);
  }

  /** The last round leaves out MixColumns. */
  method LastRound(state: array2<byte>, key: array<word>, at: nat, ghost w: seq<word>)
    requires IsMatrix(state) && w <= key[..] && at + 4 <= |w|
    modifies state
    ensures StateOf(state) == Cipher.AddRoundKey(Cipher.Scramble(old(StateOf(state))), w, at)
  {
    hide Cipher.SubBytes, Cipher.ShiftRows, Cipher.AddRoundKey, StateOf;
    SubBytes(state);
    ShiftRows(state);
    AddRoundKey(state, key, at, w);
  }

  /** The last round of the inverse cipher. */
  method LastInvRound(state: array2<byte>, key: array<word>, at: nat, ghost w: seq<word>)
    requires IsMatrix(state) && w <= key[..] && at + 4 <= |w|
    modifies state
    ensures StateOf(state) == Cipher.AddRoundKey(Cipher.Unscramble(old(StateOf(state))), w, at)
  {
    hide Cipher.InvSubBytes, Cipher.InvShiftRows, Cipher.AddRoundKey, StateOf;
    InvShiftRows(state);
    InvSubBytes(state);
    AddRoundKey(state, key, at, w);
  }

  method AesEncrypt(input: array<byte>, output: array<byte>, key: array<word>, keysize: int)
    requires input.Length >= 16 && output.Length >= 16
    requires 4 * (Cipher.EncryptRounds(keysize) + 1) <= key.Length
    modifies output
    ensures output[..16] == Cipher.Encrypt(old(input[..16]), Schedule(key, keysize), keysize)
    ensures output[16..] == old(output[16..])
  {
    hide Cipher.ToState, Cipher.FromState, Cipher.AddRoundKey, Cipher.MixColumns, Cipher.Scramble, StateOf;
    ghost var w := Schedule(key, keysize);
    var state := new byte[4, 4];
    LoadState(input, state);
    ghost var s := StateOf(state);
    AddRoundKey(state, key, 0, w);
    FullRound(state, key, 4, w);
    assert StateOf(state) == Cipher.Forward(s, w, 1);
    FullRound(state, key, 8, w);
    assert StateOf(state) == Cipher.Forward(s, w, 2);
    FullRound(state, key, 12, w);
    assert StateOf(state) == Cipher.Forward(s, w, 3);
    FullRound(state, key, 16, w);
    assert StateOf(state) == Cipher.Forward(s, w, 4);
    FullRound(state, key, 20, w);
    assert StateOf(state) == Cipher.Forward(s, w, 5);
    FullRound(state, key, 24, w);
    assert StateOf(state) == Cipher.Forward(s, w, 6);
    FullRound(state, key, 28, w);
    assert StateOf(state) == Cipher.Forward(s, w, 7);
    FullRound(state, key, 32, w);
    assert StateOf(state) == Cipher.Forward(s, w, 8);
    FullRound(state, key, 36, w);
    assert StateOf(state) == Cipher.Forward(s, w, 9);
    if keysize != 128 {
      FullRound(state, key, 40, w);
      assert StateOf(state) == Cipher.Forward(s, w, 10);
      FullRound(state, key, 44, w);
      assert StateOf(state) == Cipher.Forward(s, w, 11);
      if keysize != 192 {
        FullRound(state, key, 48, w);
        assert StateOf(state) == Cipher.Forward(s, w, 12);
        FullRound(state, key, 52, w);
        assert StateOf(state) == Cipher.Forward(s, w, 13);
        LastRound(state, key, 56, w);
      } else {
        LastRound(state, key, 48, w);
      }
    } else {
      LastRound(state, key, 40, w);
    }
    StoreState(state, output);
  }

  method AesDecrypt(input: array<byte>, output: array<byte>, key: array<word>, keysize: int)
    requires input.Length >= 16 && output.Length >= 16
    requires 4 * (Cipher.DecryptRounds(keysize) + 1) <= key.Length
    modifies output
    ensures output[..16] ==
            Cipher.Decrypt(old(input[..16]), key[..4 * (Cipher.DecryptRounds(keysize) + 1)], keysize)
    ensures output[16..] == old(output[16..])
  {
    hide Cipher.ToState, Cipher.FromState, Cipher.AddRoundKey, Cipher.InvMixColumns, Cipher.Unscramble, StateOf;
    ghost var w := key[..4 * (Cipher.DecryptRounds(keysize) + 1)];
    var state := new byte[4, 4];
    LoadState(input, state);
    ghost var whole := Cipher.DecryptState(StateOf(state), w, Cipher.DecryptRounds(keysize));
    if keysize > 128 {
      if keysize > 192 {
        AddRoundKey(state, key, 56, w);
        FullInvRound(state, key, 52, w);
        assert Cipher.Backward(StateOf(state), w, 12) == whole;
        FullInvRound(state, key, 48, w);
      } else {
        AddRoundKey(state, key, 48, w);
      }
      assert Cipher.Backward(StateOf(state), w, 11) == whole;
      FullInvRound(state, key, 44, w);
      assert Cipher.Backward(StateOf(state), w, 10) == whole;
      FullInvRound(state, key, 40, w);
    } else {
      AddRoundKey(state, key, 40, w);
    }
    assert Cipher.Backward(StateOf(state), w, 9) == whole;
    FullInvRound(state, key, 36, w);
    assert Cipher.Backward(StateOf(state), w, 8) == whole;
    FullInvRound(state, key, 32, w);
    assert Cipher.Backward(StateOf(state), w, 7) == whole;
    FullInvRound(state, key, 28, w);
    assert Cipher.Backward(StateOf(state), w, 6) == whole;
    FullInvRound(state, key, 24, w);
    assert Cipher.Backward(StateOf(state), w, 5) == whole;
    FullInvRound(state, key, 20, w);
    assert Cipher.Backward(StateOf(state), w, 4) == whole;
    FullInvRound(state, key, 16, w);
    assert Cipher.Backward(StateOf(state), w, 3) == whole;
    FullInvRound(state, key, 12, w);
    assert Cipher.Backward(StateOf(state), w, 2) == whole;
    FullInvRound(state, key, 8, w);
    assert Cipher.Backward(StateOf(state), w, 1) == whole;
    FullInvRound(state, key, 4, w);
    assert Cipher.Backward(StateOf(state), w, 0) == whole;
    LastInvRound(state, key, 0, w);
    StoreState(state, output);
  }
}

/**
 The cipher and inverse cipher of section 5 of FIPS 197 as functions on a 4x4 state held as
 four columns, and the theorem that either undoes the other under any schedule of words.
 */
module Cipher {
  import opened Bytes
  import opened SubstitutionBox
  import opened ColumnMatrix

  datatype State = State(c0: Column, c1: Column, c2: Column, c3: Column)

  /** Sequential bytes of the input fill the state column by column. */
  function ToState(b: Block): State {
    State(Column(b[0], b[1], b[2], b[3]), Column(b[4], b[5], b[6], b[7]),
          Column(b[8], b[9], b[10], b[11]), Column(b[12], b[13], b[14], b[15]))
  }

  function FromState(s: State): Block {
    [s.c0.b0, s.c0.b1, s.c0.b2, s.c0.b3, s.c1.b0, s.c1.b1, s.c1.b2, s.c1.b3,
     s.c2.b0, s.c2.b1, s.c2.b2, s.c2.b3, s.c3.b0, s.c3.b1, s.c3.b2, s.c3.b3]
  }

  // ---------- The four steps of a round and their inverses ----------

  function SubColumn(c: Column): Column {
    Column(SubByte(c.b0), SubByte(c.b1), SubByte(c.b2), SubByte(c.b3))
  }

  function InvSubColumn(c: Column): Column {
    Column(InvSubByte(c.b0), InvSubByte(c.b1), InvSubByte(c.b2), InvSubByte(c.b3))
  }

  function SubBytes(s: State): State {
    State(SubColumn(s.c0), SubColumn(s.c1), SubColumn(s.c2), SubColumn(s.c3))
  }

  function InvSubBytes(s: State): State {
    State(InvSubColumn(s.c0), InvSubColumn(s.c1), InvSubColumn(s.c2), InvSubColumn(s.c3))
  }

  /** Row r moves left by r places, section 5.1.2. */
  function ShiftRows(s: State): State {
    State(Column(s.c0.b0, s.c1.b1, s.c2.b2, s.c3.b3), Column(s.c1.b0, s.c2.b1, s.c3.b2, s.c0.b3),
          Column(s.c2.b0, s.c3.b1, s.c0.b2, s.c1.b3), Column(s.c3.b0, s.c0.b1, s.c1.b2, s.c2.b3))
  }

  /** Row r moves right by r places, section 5.3.1. */
  function InvShiftRows(s: State): State {
    State(Column(s.c0.b0, s.c3.b1, s.c2.b2, s.c1.b3), Column(s.c1.b0, s.c0.b1, s.c3.b2, s.c2.b3),
          Column(s.c2.b0, s.c1.b1, s.c0.b2, s.c3.b3), Column(s.c3.b0, s.c2.b1, s.c1.b2, s.c0.b3))
  }

  function MixColumns(s: State): State {
    State(Mix(s.c0), Mix(s.c1), Mix(s.c2), Mix(s.c3))
  }

  function InvMixColumns(s: State): State {
    State(InvMix(s.c0), InvMix(s.c1), InvMix(s.c2), InvMix(s.c3))
  }

  /** The bytes of a word, most significant first. */
  function WordColumn(w: word): Column {
    Column((w >> 24) as byte, ((w >> 16) & 0xff) as byte, ((w >> 8) & 0xff) as byte, (w & 0xff) as byte)
  }

  function AddColumn(c: Column, k: Column): Column {
    Column(Add(c.b0, k.b0), Add(c.b1, k.b1), Add(c.b2, k.b2), Add(c.b3, k.b3))
  }

  /** Each column is combined with one word of the schedule, starting at word `at`. */
  function AddRoundKey(s: State, w: seq<word>, at: nat): State
    requires at + 4 <= |w|
  {
    State(AddColumn(s.c0, WordColumn(w[at])), AddColumn(s.c1, WordColumn(w[at + 1])),
          AddColumn(s.c2, WordColumn(w[at + 2])), AddColumn(s.c3, WordColumn(w[at + 3])))
  }

  /** What precedes MixColumns in a round. */
  function Scramble(s: State): State {
    ShiftRows(SubBytes(s))
  }

  function Unscramble(s: State): State {
    InvSubBytes(InvShiftRows(s))
  }

  // ---------- Cipher and inverse cipher ----------

  /** The state after the initial key addition and r full rounds, section 5.1. */
  function Forward(s: State, w: seq<word>, r: nat): State
    requires 4 * (r + 1) <= |w|
  {
    if r == 0 then AddRoundKey(s, w, 0)
    else AddRoundKey(MixColumns(Scramble(Forward(s, w, r - 1))), w, 4 * r)
  }

  /** Undoes full rounds r, r - 1, ..., 1 and the initial key addition, section 5.3. */
  function Backward(s: State, w: seq<word>, r: nat): State
    requires 4 * (r + 1) <= |w|
    decreases r
  {
    if r == 0 then AddRoundKey(Unscramble(s), w, 0)
    else Backward(InvMixColumns(AddRoundKey(Unscramble(s), w, 4 * r)), w, r - 1)
  }

  function EncryptState(s: State, w: seq<word>, rounds: nat): State
    requires rounds >= 1 && 4 * (rounds + 1) <= |w|
  {
    AddRoundKey(Scramble(Forward(s, w, rounds - 1)), w, 4 * rounds)
  }

  function DecryptState(s: State, w: seq<word>, rounds: nat): State
    requires rounds >= 1 && 4 * (rounds + 1) <= |w|
  {
    Backward(AddRoundKey(s, w, 4 * rounds), w, rounds - 1)
  }

  /** The number of rounds aes_encrypt performs. */
  function EncryptRounds(keysize: int): nat {
    if keysize == 128 then 10 else if keysize == 192 then 12 else 14
  }

  /** The number of rounds aes_decrypt performs. */
  function DecryptRounds(keysize: int): nat {
    if keysize > 192 then 14 else if keysize > 128 then 12 else 10
  }

  predicate SupportedKeySize(keysize: int) {
    keysize == 128 || keysize == 192 || keysize == 256
  }

  function Encrypt(b: Block, w: seq<word>, keysize: int): Block
    requires 4 * (EncryptRounds(keysize) + 1) <= |w|
  {
    FromState(EncryptState(ToState(b), w, EncryptRounds(keysize)))
  }

  function Decrypt(b: Block, w: seq<word>, keysize: int): Block
    requires 4 * (DecryptRounds(keysize) + 1) <= |w|
  {
    FromState(DecryptState(ToState(b), w, DecryptRounds(keysize)))
  }

  // ---------- Every step is undone by its inverse ----------

  lemma ColumnSubstitutionUndone(c: Column)
    ensures InvSubColumn(SubColumn(c)) == c
    ensures SubColumn(InvSubColumn(c)) == c
  {
    hide SubByte, InvSubByte;
    InvSubByteUndoes(c.b0);
    InvSubByteUndoes(c.b1);
    InvSubByteUndoes(c.b2);
    InvSubByteUndoes(c.b3);
    SubByteUndoes(c.b0);
    SubByteUndoes(c.b1);
    SubByteUndoes(c.b2);
    SubByteUndoes(c.b3);
  }

  lemma ScrambleUndone(s: State)
    ensures Unscramble(Scramble(s)) == s
    ensures Scramble(Unscramble(s)) == s
  {
    hide SubColumn, InvSubColumn;
    ColumnSubstitutionUndone(s.c0);
    ColumnSubstitutionUndone(s.c1);
    ColumnSubstitutionUndone(s.c2);
    ColumnSubstitutionUndone(s.c3);
    var t := InvShiftRows(s);
    ColumnSubstitutionUndone(t.c0);
    ColumnSubstitutionUndone(t.c1);
    ColumnSubstitutionUndone(t.c2);
    ColumnSubstitutionUndone(t.c3);
  }

  lemma MixColumnsUndone(s: State)
    ensures InvMixColumns(MixColumns(s)) == s
    ensures MixColumns(InvMixColumns(s)) == s
  {
    hide Mix, InvMix;
    InvMixUndoes(s.c0);
    InvMixUndoes(s.c1);
    InvMixUndoes(s.c2);
    InvMixUndoes(s.c3);
    MixUndoes(s.c0);
    MixUndoes(s.c1);
    MixUndoes(s.c2);
    MixUndoes(s.c3);
  }

  lemma AddColumnUndone(c: Column, k: Column)
    ensures AddColumn(AddColumn(c, k), k) == c
  {
    hide Add;
    AddCancels(c.b0, k.b0);
    AddCancels(c.b1, k.b1);
    AddCancels(c.b2, k.b2);
    AddCancels(c.b3, k.b3);
  }

  lemma AddRoundKeyUndone(s: State, w: seq<word>, at: nat)
    requires at + 4 <= |w|
    ensures AddRoundKey(AddRoundKey(s, w, at), w, at) == s
  {
    hide AddColumn, WordColumn;
    AddColumnUndone(s.c0, WordColumn(w[at]));
    AddColumnUndone(s.c1, WordColumn(w[at + 1]));
    AddColumnUndone(s.c2, WordColumn(w[at + 2]));
    AddColumnUndone(s.c3, WordColumn(w[at + 3]));
  }

  // ---------- The block theorem ----------

  lemma {:induction false} BackwardUndoesForward(s: State, w: seq<word>, r: nat)
    requires 4 * (r + 1) <= |w|
    ensures Backward(Scramble(Forward(s, w, r)), w, r) == s
    decreases r
  {
    hide AddRoundKey, Scramble, Unscramble, MixColumns, InvMixColumns;
    ScrambleUndone(Forward(s, w, r));
    if r == 0 {
      AddRoundKeyUndone(s, w, 0);
    } else {
      var before := Scramble(Forward(s, w, r - 1));
      AddRoundKeyUndone(MixColumns(before), w, 4 * r);
      MixColumnsUndone(before);
      BackwardUndoesForward(s, w, r - 1);
    }
  }

  lemma {:induction false} ForwardUndoesBackward(s: State, w: seq<word>, r: nat)
    requires 4 * (r + 1) <= |w|
    ensures Scramble(Forward(Backward(s, w, r), w, r)) == s
    decreases r
  {
    hide AddRoundKey, Scramble, Unscramble, MixColumns, InvMixColumns;
    ScrambleUndone(s);
    if r == 0 {
      AddRoundKeyUndone(Unscramble(s), w, 0);
    } else {
      var keyed := AddRoundKey(Unscramble(s), w, 4 * r);
      ForwardUndoesBackward(InvMixColumns(keyed), w, r - 1);
      MixColumnsUndone(keyed);
      AddRoundKeyUndone(Unscramble(s), w, 4 * r);
    }
  }

  lemma StateRoundTrip(s: State, w: seq<word>, rounds: nat)
    requires rounds >= 1 && 4 * (rounds + 1) <= |w|
    ensures DecryptState(EncryptState(s, w, rounds), w, rounds) == s
    ensures EncryptState(DecryptState(s, w, rounds), w, rounds) == s
  {
    hide AddRoundKey, Scramble, Forward, Backward;
    AddRoundKeyUndone(Scramble(Forward(s, w, rounds - 1)), w, 4 * rounds);
    BackwardUndoesForward(s, w, rounds - 1);
    var t := AddRoundKey(s, w, 4 * rounds);
    ForwardUndoesBackward(t, w, rounds - 1);
    AddRoundKeyUndone(s, w, 4 * rounds);
  }

  lemma BlockStateRoundTrip(b: Block, s: State)
    ensures FromState(ToState(b)) == b
    ensures ToState(FromState(s)) == s
  {
  }

  /** The two functions agree on the number of rounds for these sizes and for no others. */
  lemma RoundsAgree(keysize: int)
    ensures EncryptRounds(keysize) == DecryptRounds(keysize) <==> keysize == 128 || keysize >= 192
  {
  }

  /** Decryption undoes encryption and encryption undoes decryption, for every block and
      every array of schedule words. */
  lemma BlockRoundTrip(b: Block, w: seq<word>, keysize: int)
    requires keysize == 128 || keysize >= 192
    requires 4 * (EncryptRounds(keysize) + 1) <= |w|
    ensures DecryptRounds(keysize) == EncryptRounds(keysize)
    ensures Decrypt(Encrypt(b, w, keysize), w, keysize) == b
    ensures Encrypt(Decrypt(b, w, keysize), w, keysize) == b
  {
    hide ToState, FromState, EncryptState, DecryptState;
    var rounds := EncryptRounds(keysize);
    var s := ToState(b);
    BlockStateRoundTrip(b, EncryptState(s, w, rounds));
    BlockStateRoundTrip(b, DecryptState(s, w, rounds));
    StateRoundTrip(s, w, rounds);
  }
}

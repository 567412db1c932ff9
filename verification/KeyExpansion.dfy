/**
 Key expansion.  The recurrence is stated on bytes as section 5.2 of FIPS 197 gives it; the
 library's word arithmetic and its Rcon table are shown to follow it, and the schedule is
 shown to be recoverable from any Nk of its words.
 */
module KeyExpansion {
  import opened Bytes
  import opened GaloisField
  import opened SubstitutionBox
  import opened ColumnMatrix
  import opened Cipher

  /** Nk, the number of words of a key. */
  function KeyWords(keysize: int): nat {
    if keysize == 128 then 4 else if keysize == 192 then 6 else 8
  }

  function ScheduleLength(keysize: int): nat {
    4 * (EncryptRounds(keysize) + 1)
  }

  // ---------- The standard's recurrence ----------

  /** Four bytes as a word, most significant first. */
  function Pack(a: byte, b: byte, c: byte, d: byte): word {
    ((a as word) << 24) | ((b as word) << 16) | ((c as word) << 8) | (d as word)
  }

  function ColumnWord(c: Column): word {
    Pack(c.b0, c.b1, c.b2, c.b3)
  }

  function RotColumn(c: Column): Column {
    Column(c.b1, c.b2, c.b3, c.b0)
  }

  /** Adds the round constant x^k to the first byte. */
  function AddRcon(c: Column, k: nat): Column {
    Column(Add(c.b0, XPow(1, k)), c.b1, c.b2, c.b3)
  }

  /** What is added to word i - nk to give word i, from word i - 1. */
  function Temp(previous: word, i: nat, nk: nat): word
    requires nk > 0 && i >= nk
  {
    if i % nk == 0 then ColumnWord(AddRcon(SubColumn(RotColumn(WordColumn(previous))), i / nk - 1))
    else if nk > 6 && i % nk == 4 then ColumnWord(SubColumn(WordColumn(previous)))
    else previous
  }

  function KeyWord(key: seq<byte>, i: nat): word
    requires 4 * i + 4 <= |key|
  {
    Pack(key[4 * i], key[4 * i + 1], key[4 * i + 2], key[4 * i + 3])
  }

  function XorWords(x: word, y: word): word {
    x ^ y
  }

  /** Word i of the expanded key. */
  function ScheduleWord(key: seq<byte>, nk: nat, i: nat): word
    requires nk > 0 && |key| == 4 * nk
  {
    if i < nk then KeyWord(key, i)
    else XorWords(ScheduleWord(key, nk, i - nk), Temp(ScheduleWord(key, nk, i - 1), i, nk))
  }

  /** The first n words of the expanded key. */
  function Words(key: seq<byte>, nk: nat, n: nat): (w: seq<word>)
    requires nk > 0 && |key| == 4 * nk
    ensures |w| == n
  {
    seq(n, i requires 0 <= i < n => ScheduleWord(key, nk, i))
  }

  function Expand(key: seq<byte>, keysize: int): (w: seq<word>)
    requires |key| == 4 * KeyWords(keysize)
    ensures |w| == ScheduleLength(keysize)
  {
    Words(key, KeyWords(keysize), ScheduleLength(keysize))
  }

  // ---------- The library's word arithmetic ----------

  const RCON: seq<word> :=
    [0x01000000, 0x02000000, 0x04000000, 0x08000000, 0x10000000, 0x20000000, 0x40000000, 0x80000000,
     0x1b000000, 0x36000000, 0x6c000000, 0xd8000000, 0xab000000, 0x4d000000, 0x9a000000]

  /** The bytes of a word added up from the least significant one. */
  function PackSum(a: byte, b: byte, c: byte, d: byte): word {
    (d as word) + ((c as word) << 8) + ((b as word) << 16) + ((a as word) << 24)
  }

  function SubWord(w: word): word {
    PackSum(SubByte((w >> 24) as byte), SubByte(((w >> 16) & 0xff) as byte),
            SubByte(((w >> 8) & 0xff) as byte), SubByte((w & 0xff) as byte))
  }

  /** KE_ROTWORD */
  function RotWord(w: word): word {
    (w << 8) | (w >> 24)
  }

  lemma PackSumIsPack(a: byte, b: byte, c: byte, d: byte)
    ensures PackSum(a, b, c, d) == Pack(a, b, c, d)
  {
    SumOfTwo(c, d);
    SumWithThird((d as word) | ((c as word) << 8), b);
    SumWithFourth((d as word) | ((c as word) << 8) | ((b as word) << 16), a);
    OrReverses(a, b, c, d);
  }

  lemma SumOfTwo(c: byte, d: byte)
    ensures (d as word) + ((c as word) << 8) == (d as word) | ((c as word) << 8)
    ensures (d as word) | ((c as word) << 8) <= 0xffff
  {
  }

  lemma SumWithThird(x: word, b: byte)
    requires x <= 0xffff
    ensures x + ((b as word) << 16) == x | ((b as word) << 16)
    ensures x | ((b as word) << 16) <= 0xff_ffff
  {
  }

  lemma SumWithFourth(x: word, a: byte)
    requires x <= 0xff_ffff
    ensures x + ((a as word) << 24) == x | ((a as word) << 24)
  {
  }

  lemma OrReverses(a: byte, b: byte, c: byte, d: byte)
    ensures (d as word) | ((c as word) << 8) | ((b as word) << 16) | ((a as word) << 24) ==
            ((a as word) << 24) | ((b as word) << 16) | ((c as word) << 8) | (d as word)
  {
  }

  lemma SubWordIsBytewise(w: word)
    ensures SubWord(w) == ColumnWord(SubColumn(WordColumn(w)))
  {
    hide SubByte, Pack, PackSum;
    var c := SubColumn(WordColumn(w));
    PackSumIsPack(c.b0, c.b1, c.b2, c.b3);
  }

  lemma RotWordIsRotation(w: word)
    ensures WordColumn(RotWord(w)) == RotColumn(WordColumn(w))
  {
  }

  lemma WordColumnInverse(w: word, c: Column)
    ensures ColumnWord(WordColumn(w)) == w
    ensures WordColumn(ColumnWord(c)) == c
  {
  }

  lemma XorTopByte(a: byte, b: byte, c: byte, d: byte, k: byte)
    ensures (((a as word) << 24) | ((b as word) << 16) | ((c as word) << 8) | (d as word)) ^ ((k as word) << 24) ==
            (((a ^ k) as word) << 24) | ((b as word) << 16) | ((c as word) << 8) | (d as word)
  {
  }

  lemma PackAddTop(a: byte, b: byte, c: byte, d: byte, k: byte)
    ensures Pack(a, b, c, d) ^ ((k as word) << 24) == Pack(Add(a, k), b, c, d)
  {
    XorTopByte(a, b, c, d, k);
  }

  /** The table holds the powers of x in the top byte. */
  lemma RconIsPower(k: nat)
    requires k < 15
    ensures RCON[k] == (XPow(1, k) as word) << 24
  {
  }

  predicate KeyLength(nk: nat) {
    nk == 4 || nk == 6 || nk == 8
  }

  /** The library's expression for a word at a multiple of Nk is the standard's. */
  lemma LibraryTemp(previous: word, i: nat, nk: nat)
    requires KeyLength(nk) && nk <= i <= 15 * nk && i % nk == 0
    ensures SubWord(RotWord(previous)) ^ RCON[(i - 1) / nk] == Temp(previous, i, nk)
  {
    hide SubWord, RotWord, Pack, SubByte, XPow, Add;
    var k := i / nk - 1;
    assert (i - 1) / nk == k;
    var rotated := RotWord(previous);
    SubWordIsBytewise(rotated);
    RotWordIsRotation(previous);
    RconIsPower(k);
    var c := SubColumn(WordColumn(rotated));
    PackAddTop(c.b0, c.b1, c.b2, c.b3, XPow(1, k));
  }

  lemma LibrarySubTemp(previous: word, i: nat, nk: nat)
    requires nk > 6 && nk <= i && i % nk == 4
    ensures SubWord(previous) == Temp(previous, i, nk)
  {
    SubWordIsBytewise(previous);
  }

  lemma PlainTemp(previous: word, i: nat, nk: nat)
    requires nk > 0 && nk <= i && i % nk != 0 && !(nk > 6 && i % nk == 4)
    ensures previous == Temp(previous, i, nk)
  {
  }

  lemma ScheduleStart(key: seq<byte>, nk: nat, i: nat)
    requires nk > 0 && |key| == 4 * nk && i < nk
    ensures ScheduleWord(key, nk, i) == KeyWord(key, i)
  {
  }

  lemma ScheduleStep(key: seq<byte>, nk: nat, i: nat)
    requires nk > 0 && |key| == 4 * nk && nk <= i
    ensures ScheduleWord(key, nk, i) ==
            XorWords(ScheduleWord(key, nk, i - nk), Temp(ScheduleWord(key, nk, i - 1), i, nk))
  {
  }

  method AesKeySetup(key: array<byte>, w: array<word>, keysize: int)
    requires SupportedKeySize(keysize) ==>
               4 * KeyWords(keysize) <= key.Length && ScheduleLength(keysize) <= w.Length
    modifies w
    ensures SupportedKeySize(keysize) ==>
              w[..ScheduleLength(keysize)] == Expand(key[..4 * KeyWords(keysize)], keysize)
    ensures SupportedKeySize(keysize) ==>
              w[ScheduleLength(keysize)..] == old(w[ScheduleLength(keysize)..])
    ensures !SupportedKeySize(keysize) ==> w[..] == old(w[..])
  {
    hide Temp, SubWord, RotWord, Pack, XorWords, ScheduleWord;
    var nr, nk: nat;
    match keysize {
      case 128 => nr, nk := 10, 4;
      case 192 => nr, nk := 12, 6;
      case 256 => nr, nk := 14, 8;
      case _ => return;
    }
    ghost var k := key[..4 * nk];
    for i := 0 to nk
      invariant forall j :: 0 <= j < i ==> w[j] == ScheduleWord(k, nk, j)
      invariant forall j :: i <= j < w.Length ==> w[j] == old(w[j])
    {
      ScheduleStart(k, nk, i);
      w[i] := Pack(key[4 * i], key[4 * i + 1], key[4 * i + 2], key[4 * i + 3]);
    }
    for i := nk to 4 * (nr + 1)
      invariant forall j :: 0 <= j < i ==> w[j] == ScheduleWord(k, nk, j)
      invariant forall j :: i <= j < w.Length ==> w[j] == old(w[j])
    {
      var temp := w[i - 1];
      if i % nk == 0 {
        LibraryTemp(temp, i, nk);
        temp := SubWord(RotWord(temp)) ^ RCON[(i - 1) / nk];
      } else if nk > 6 && i % nk == 4 {
        LibrarySubTemp(temp, i, nk);
        temp := SubWord(temp);
      } else {
        PlainTemp(temp, i, nk);
      }
      ScheduleStep(k, nk, i);
      w[i] := XorWords(w[i - nk], temp);
    }
  }

  // ---------- Any Nk consecutive words determine the schedule ----------

  /** The words satisfy the recurrence of section 5.2 of FIPS 197. */
  predicate FollowsRecurrence(w: seq<word>, nk: nat)
    requires nk > 0
  {
    forall i :: nk <= i < |w| ==> w[i] == XorWords(w[i - nk], Temp(w[i - 1], i, nk))
  }

  lemma ExpandFollowsRecurrence(key: seq<byte>, keysize: int)
    requires |key| == 4 * KeyWords(keysize)
    ensures FollowsRecurrence(Expand(key, keysize), KeyWords(keysize))
  {
    hide Temp, XorWords;
  }

  lemma RecurrenceAt(w: seq<word>, nk: nat, i: nat)
    requires nk > 0 && nk <= i < |w| && FollowsRecurrence(w, nk)
    ensures w[i] == XorWords(w[i - nk], Temp(w[i - 1], i, nk))
  {
  }

  lemma XorWordCancels(x: word, y: word)
    ensures XorWords(XorWords(x, y), y) == x
  {
  }

  /** Steps a window of Nk words starting at word k back to the start of the schedule. */
  function Rewind(window: seq<word>, k: nat): (r: seq<word>)
    requires |window| >= 2
    ensures |r| == |window|
    decreases k
  {
    var nk := |window|;
    if k == 0 then window
    else
      var previous := XorWords(window[nk - 1], Temp(window[nk - 2], k - 1 + nk, nk));
      Rewind([previous] + window[..nk - 1], k - 1)
  }

  lemma WindowStep(w: seq<word>, nk: nat, k: nat)
    requires nk >= 2 && k >= 1 && k + nk <= |w|
    ensures [w[k - 1]] + w[k..k + nk][..nk - 1] == w[k - 1..k - 1 + nk]
    ensures w[k..k + nk][nk - 1] == w[k - 1 + nk]
    ensures w[k..k + nk][nk - 2] == w[k - 2 + nk]
  {
  }

  lemma {:induction false} RewindFindsStart(w: seq<word>, nk: nat, k: nat)
    requires nk >= 2 && k + nk <= |w| && FollowsRecurrence(w, nk)
    ensures Rewind(w[k..k + nk], k) == w[..nk]
    decreases k
  {
    hide Temp, XorWords, FollowsRecurrence;
    if k > 0 {
      WindowStep(w, nk, k);
      RecurrenceAt(w, nk, k - 1 + nk);
      XorWordCancels(w[k - 1], Temp(w[k - 2 + nk], k - 1 + nk, nk));
      RewindFindsStart(w, nk, k - 1);
    }
  }

  lemma {:induction false} StartDetermines(v: seq<word>, w: seq<word>, nk: nat, i: nat)
    requires nk >= 2 && |v| == |w| && i < |w|
    requires FollowsRecurrence(v, nk) && FollowsRecurrence(w, nk)
    requires nk <= |w| && v[..nk] == w[..nk]
    ensures v[i] == w[i]
  {
    hide Temp, XorWords, FollowsRecurrence;
    if i < nk {
      assert v[i] == v[..nk][i];
    } else {
      RecurrenceAt(v, nk, i);
      RecurrenceAt(w, nk, i);
      StartDetermines(v, w, nk, i - 1);
      StartDetermines(v, w, nk, i - nk);
    }
  }

  /** Two schedules that agree on some Nk consecutive words are equal. */
  lemma WindowDetermines(v: seq<word>, w: seq<word>, nk: nat, k: nat)
    requires nk >= 2 && |v| == |w| && k + nk <= |w|
    requires FollowsRecurrence(v, nk) && FollowsRecurrence(w, nk)
    requires v[k..k + nk] == w[k..k + nk]
    ensures v == w
  {
    RewindFindsStart(v, nk, k);
    RewindFindsStart(w, nk, k);
    forall i | 0 <= i < |w|
      ensures v[i] == w[i]
    {
      StartDetermines(v, w, nk, i);
    }
  }

  /** The bytes of a string of words. */
  function WordBytes(w: seq<word>): (r: seq<byte>)
    ensures |r| == 4 * |w|
  {
    if w == [] then []
    else
      var c := WordColumn(w[0]);
      [c.b0, c.b1, c.b2, c.b3] + WordBytes(w[1..])
  }

  lemma {:induction false} WordBytesAt(w: seq<word>, i: nat, j: nat)
    requires i < |w| && j < 4
    ensures var c := WordColumn(w[i]);
            WordBytes(w)[4 * i + j] == [c.b0, c.b1, c.b2, c.b3][j]
  {
    hide WordColumn;
    if i > 0 {
      WordBytesAt(w[1..], i - 1, j);
    }
  }

  lemma KeyWordBytes(key: seq<byte>, i: nat, j: nat)
    requires 4 * i + 4 <= |key| && j < 4
    ensures var c := WordColumn(KeyWord(key, i));
            [c.b0, c.b1, c.b2, c.b3][j] == key[4 * i + j]
  {
    hide WordColumn, Pack;
    WordColumnInverse(0, Column(key[4 * i], key[4 * i + 1], key[4 * i + 2], key[4 * i + 3]));
  }

  /** Running the recurrence backwards from any Nk words of an expanded key gives the key. */
  lemma KeyIsRecoverable(key: seq<byte>, keysize: int, k: nat)
    requires SupportedKeySize(keysize) && |key| == 4 * KeyWords(keysize)
    requires k + KeyWords(keysize) <= ScheduleLength(keysize)
    ensures WordBytes(Rewind(Expand(key, keysize)[k..k + KeyWords(keysize)], k)) == key
  {
    hide Temp, WordColumn, KeyWord, Rewind, WordBytes, ScheduleWord, FollowsRecurrence;
    var nk := KeyWords(keysize);
    var w := Expand(key, keysize);
    ExpandFollowsRecurrence(key, keysize);
    RewindFindsStart(w, nk, k);
    var start := w[..nk];
    forall m | 0 <= m < |key|
      ensures WordBytes(start)[m] == key[m]
    {
      var i, j := m / 4, m % 4;
      WordBytesAt(start, i, j);
      ScheduleStart(key, nk, i);
      KeyWordBytes(key, i, j);
    }
  }
}

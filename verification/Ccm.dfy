/**
 CCM as the library computes it: the formatting of nonce, associated data and payload, the
 counter blocks, and authenticated encryption and decryption as functions.  The layout is
 that of NIST SP 800-38C except where a comment says otherwise.
 */
module Ccm {
  import opened Bytes
  import opened Counter
  import opened Cbc
  import opened Ctr

  function Zeros(n: nat): (s: seq<byte>)
    ensures |s| == n
  {
    seq(n, _ => 0)
  }

  // ---------- Formatting ----------

  /** ((mac_len - 2) / 2) & 7 with C's division, which truncates. */
  function MacField(macLen: nat): nat {
    if macLen >= 2 then (macLen - 2) / 2 % 8 else if macLen == 1 then 0 else 7
  }

  /** (payload_len_store_size - 1) & 7, where the store size is 15 - nonce_len. */
  function SizeField(nonceLen: nat): nat {
    (14 - nonceLen) % 8
  }

  function Flags(hasAssoc: bool, macLen: nat, nonceLen: nat): byte {
    ByteOf((if hasAssoc then 64 else 0) + 8 * MacField(macLen) + SizeField(nonceLen))
  }

  /** The first formatted block; only the low sixteen bits of the payload length are kept. */
  function FirstBlock(nonce: seq<byte>, assocLen: nat, payloadLen: nat, macLen: nat): Block
    requires |nonce| <= 15
  {
    var b := [Flags(assocLen > 0, macLen, |nonce|)] + nonce + Zeros(15 - |nonce|);
    b[14 := ByteOf(payloadLen / 256 % 256)][15 := ByteOf(payloadLen % 256)]
  }

  /** Two length bytes, the data, and padding up to a block boundary: a full block of padding
      when the data already ends at one.  `start` is where the field begins. */
  function AssocField(assoc: seq<byte>, start: nat): (f: seq<byte>)
    ensures (start + |f|) % 16 == 0
  {
    [ByteOf(|assoc| / 256 % 256), ByteOf(|assoc| % 256)] + assoc + Zeros(16 - (start + 2 + |assoc|) % 16)
  }

  /** The payload, padded only when it does not end at a block boundary. */
  function PayloadField(payload: seq<byte>, start: nat): (f: seq<byte>)
    ensures (start + |f|) % 16 == 0
  {
    payload + Zeros((16 - (start + |payload|) % 16) % 16)
  }

  function Formatted(nonce: seq<byte>, assoc: seq<byte>, payload: seq<byte>, macLen: nat): (f: seq<byte>)
    requires |nonce| <= 15
    ensures |f| % 16 == 0
  {
    var front := FirstBlock(nonce, |assoc|, |payload|, macLen) + AssocField(assoc, 16);
    front + PayloadField(payload, |front|)
  }

  function AssocBlocks(assocLen: nat): nat {
    (assocLen + 2) / 16 + 1
  }

  function PayloadBlocks(payloadLen: nat): nat {
    (payloadLen + 15) / 16
  }

  function FormattedLength(assocLen: nat, payloadLen: nat): nat {
    16 + 16 * AssocBlocks(assocLen) + 16 * PayloadBlocks(payloadLen)
  }

  lemma AssocPadding(a: nat)
    ensures 2 + a + (16 - (16 + 2 + a) % 16) == 16 * AssocBlocks(a)
  {
  }

  lemma PayloadPadding(blocks: nat, p: nat)
    ensures p + (16 - (16 * blocks + p) % 16) % 16 == 16 * PayloadBlocks(p)
  {
  }

  lemma LengthOfFormatted(nonce: seq<byte>, assoc: seq<byte>, payload: seq<byte>, macLen: nat)
    requires |nonce| <= 15
    ensures |AssocField(assoc, 16)| == 16 * AssocBlocks(|assoc|)
    ensures |Formatted(nonce, assoc, payload, macLen)| == FormattedLength(|assoc|, |payload|)
  {
    hide AssocBlocks, PayloadBlocks, FirstBlock;
    AssocPadding(|assoc|);
    PayloadPadding(1 + AssocBlocks(|assoc|), |payload|);
  }

  /** The size the encryption function allocates is enough except for one pair of remainders,
      where it is one byte short. */
  lemma AllocationSuffices(assocLen: nat, payloadLen: nat)
    ensures FormattedLength(assocLen, payloadLen) <= payloadLen + assocLen + 48 <==>
            !(assocLen % 16 == 14 && payloadLen % 16 == 1)
    ensures FormattedLength(assocLen, payloadLen) <= payloadLen + assocLen + 49
  {
  }

  /** Two stored digits keep the low sixteen bits. */
  lemma TwoDigits(v: nat)
    ensures 256 * (v / 256 % 256) + v % 256 == v % 65536
  {
  }

  // ---------- Reading the format back ----------

  function ParsedMacLen(f: seq<byte>): nat
    requires |f| >= 16
  {
    2 * (Value(f[0]) / 8 % 8) + 2
  }

  function ParsedNonce(f: seq<byte>): seq<byte>
    requires |f| >= 16
  {
    f[1..15 - Value(f[0]) % 8]
  }

  function ParsedAssocLen(f: seq<byte>): nat
    requires |f| >= 18
  {
    256 * Value(f[16]) + Value(f[17])
  }

  function ParsedAssoc(f: seq<byte>): seq<byte>
    requires |f| >= 18 && |f| >= 18 + ParsedAssocLen(f)
  {
    f[18..18 + ParsedAssocLen(f)]
  }

  /** The number of payload blocks follows from the total length, and the low four bits of the
      stored length say how much of the last block is used. */
  function ParsedPayloadLen(f: seq<byte>): int
    requires |f| >= 18
  {
    var blocks := |f| / 16 - 1 - AssocBlocks(ParsedAssocLen(f));
    var used := Value(f[15]) % 16;
    if used == 0 then 16 * blocks else 16 * (blocks - 1) + used
  }

  function ParsedPayload(f: seq<byte>): seq<byte>
    requires |f| >= 18
    requires var start := 16 + 16 * AssocBlocks(ParsedAssocLen(f));
             0 <= ParsedPayloadLen(f) && start + ParsedPayloadLen(f) <= |f|
  {
    var start := 16 + 16 * AssocBlocks(ParsedAssocLen(f));
    f[start..start + ParsedPayloadLen(f)]
  }

  predicate ValidMacLen(macLen: nat) {
    macLen == 4 || macLen == 6 || macLen == 8 || macLen == 10 || macLen == 12 || macLen == 14 || macLen == 16
  }

  predicate ValidNonceLen(nonceLen: nat) {
    7 <= nonceLen <= 13
  }

  lemma FieldsOfFlags(hasAssoc: bool, m: nat, n: nat)
    requires m < 8 && n < 8
    ensures var v := (if hasAssoc then 64 else 0) + 8 * m + n;
            v < 256 && v / 8 % 8 == m && v % 8 == n
  {
  }

  lemma FlagsParse(hasAssoc: bool, macLen: nat, nonceLen: nat)
    requires ValidMacLen(macLen) && ValidNonceLen(nonceLen)
    ensures var v := Value(Flags(hasAssoc, macLen, nonceLen));
            2 * (v / 8 % 8) + 2 == macLen && 14 - v % 8 == nonceLen
  {
    hide Value, ByteOf, MacField, SizeField;
    var m, n := MacField(macLen), SizeField(nonceLen);
    FieldValues(macLen, nonceLen);
    FieldsOfFlags(hasAssoc, m, n);
    ValueOfByte((if hasAssoc then 64 else 0) + 8 * m + n);
  }

  lemma FieldValues(macLen: nat, nonceLen: nat)
    requires ValidMacLen(macLen) && ValidNonceLen(nonceLen)
    ensures 2 * MacField(macLen) + 2 == macLen && SizeField(nonceLen) == 14 - nonceLen
    ensures MacField(macLen) < 8 && SizeField(nonceLen) < 8
  {
  }

  lemma FirstBlockBytes(nonce: seq<byte>, assocLen: nat, payloadLen: nat, macLen: nat)
    requires ValidNonceLen(|nonce|)
    ensures var f := FirstBlock(nonce, assocLen, payloadLen, macLen);
            f[0] == Flags(assocLen > 0, macLen, |nonce|) && f[1..1 + |nonce|] == nonce &&
            f[15] == ByteOf(payloadLen % 256)
  {
    hide ByteOf, Flags;
  }

  lemma FirstBlockParses(nonce: seq<byte>, assocLen: nat, payloadLen: nat, macLen: nat)
    requires ValidNonceLen(|nonce|) && ValidMacLen(macLen)
    ensures var f := FirstBlock(nonce, assocLen, payloadLen, macLen);
            ParsedMacLen(f) == macLen && ParsedNonce(f) == nonce && Value(f[15]) == payloadLen % 256
  {
    hide Value, ByteOf, Flags, FirstBlock;
    FirstBlockBytes(nonce, assocLen, payloadLen, macLen);
    FlagsParse(assocLen > 0, macLen, |nonce|);
    ValueOfByte(payloadLen % 256);
  }

  lemma AssocFieldParses(assoc: seq<byte>)
    requires |assoc| < 65536
    ensures var g := AssocField(assoc, 16);
            256 * Value(g[0]) + Value(g[1]) == |assoc| && g[2..2 + |assoc|] == assoc
  {
    hide Value, ByteOf;
    ValueOfByte(|assoc| / 256);
    ValueOfByte(|assoc| % 256);
  }

  /** Where the fields lie in the formatted string. */
  lemma FormattedParts(nonce: seq<byte>, assoc: seq<byte>, payload: seq<byte>, macLen: nat)
    requires ValidNonceLen(|nonce|)
    ensures var f, n := Formatted(nonce, assoc, payload, macLen), 16 * AssocBlocks(|assoc|);
            |f| >= 16 + n + |payload| && n >= 2 + |assoc| &&
            f[..16] == FirstBlock(nonce, |assoc|, |payload|, macLen) &&
            f[16..16 + n] == AssocField(assoc, 16) && f[16 + n..16 + n + |payload|] == payload
  {
    hide FirstBlock, AssocField;
    LengthOfFormatted(nonce, assoc, payload, macLen);
  }

  lemma UsedBlocks(p: nat)
    ensures p == if p % 16 == 0 then 16 * PayloadBlocks(p) else 16 * (PayloadBlocks(p) - 1) + p % 16
  {
  }

  /** The formatted string determines what went into it, whatever the payload length. */
  lemma FormattedParses(nonce: seq<byte>, assoc: seq<byte>, payload: seq<byte>, macLen: nat)
    requires ValidNonceLen(|nonce|) && ValidMacLen(macLen) && |assoc| < 65536
    ensures var f := Formatted(nonce, assoc, payload, macLen);
            |f| >= 18 + |assoc| && |f| >= 16 + 16 * AssocBlocks(|assoc|) + |payload| &&
            ParsedAssocLen(f) == |assoc| && ParsedPayloadLen(f) == |payload| &&
            ParsedMacLen(f) == macLen && ParsedNonce(f) == nonce && ParsedAssoc(f) == assoc &&
            ParsedPayload(f) == payload
  {
    hide Value, FirstBlock, AssocField, Formatted, AssocBlocks, PayloadBlocks, ParsedNonce, ParsedMacLen;
    var f, n := Formatted(nonce, assoc, payload, macLen), 16 * AssocBlocks(|assoc|);
    var first, field := FirstBlock(nonce, |assoc|, |payload|, macLen), AssocField(assoc, 16);
    FormattedParts(nonce, assoc, payload, macLen);
    FirstBlockParses(nonce, |assoc|, |payload|, macLen);
    FrontParses(f, first);
    AssocFieldParses(assoc);
    assert f[15] == first[15] && f[16] == field[0] && f[17] == field[1];
    assert f[18..18 + |assoc|] == f[16..16 + n][2..2 + |assoc|];
    LengthOfFormatted(nonce, assoc, payload, macLen);
    LowBits(|payload|);
    UsedBlocks(|payload|);
  }

  lemma LowBits(p: nat)
    ensures p % 256 % 16 == p % 16
  {
  }

  lemma FrontParses(f: seq<byte>, first: Block)
    requires |f| >= 16 && f[..16] == first
    ensures ParsedMacLen(f) == ParsedMacLen(first) && ParsedNonce(f) == ParsedNonce(first)
  {
    hide Value;
    assert f[0] == first[0];
    ByteOfValue(f[0]);
  }

  /** Two inputs with the same formatted string are the same. */
  lemma FormattedInjective(nonce: seq<byte>, assoc: seq<byte>, payload: seq<byte>, macLen: nat,
                           nonce': seq<byte>, assoc': seq<byte>, payload': seq<byte>, macLen': nat)
    requires ValidNonceLen(|nonce|) && ValidMacLen(macLen) && |assoc| < 65536
    requires ValidNonceLen(|nonce'|) && ValidMacLen(macLen') && |assoc'| < 65536
    requires Formatted(nonce, assoc, payload, macLen) == Formatted(nonce', assoc', payload', macLen')
    ensures nonce == nonce' && assoc == assoc' && payload == payload' && macLen == macLen'
  {
    hide Formatted;
    FormattedParses(nonce, assoc, payload, macLen);
    FormattedParses(nonce', assoc', payload', macLen');
  }

  // ---------- Authenticated encryption ----------

  /** The counter block for the MAC: flags, nonce, and a zero count. */
  function FirstCounter(nonce: seq<byte>): Block
    requires |nonce| <= 15
  {
    [ByteOf(SizeField(|nonce|))] + nonce + Zeros(15 - |nonce|)
  }

  /** The counter block the payload starts from. */
  function PayloadCounter(nonce: seq<byte>, macLen: nat): Block
    requires |nonce| <= 15
  {
    IncrementIv(FirstCounter(nonce), 15 - macLen)
  }

  function Mac(payload: seq<byte>, assoc: seq<byte>, nonce: seq<byte>, macLen: nat, w: seq<word>, keysize: int): Block
    requires |nonce| <= 15 && GoodKey(w, keysize)
  {
    CbcMac(Formatted(nonce, assoc, payload, macLen), w, keysize, Zeros(16))
  }

  function Tag(payload: seq<byte>, assoc: seq<byte>, nonce: seq<byte>, macLen: nat, w: seq<word>, keysize: int): seq<byte>
    requires |nonce| <= 15 && macLen <= 16 && GoodKey(w, keysize)
  {
    Mac(payload, assoc, nonce, macLen, w, keysize)[..macLen]
  }

  /** The payload under CTR from the payload counter, then the tag under CTR from the first. */
  function Seal(payload: seq<byte>, assoc: seq<byte>, nonce: seq<byte>, macLen: nat, w: seq<word>, keysize: int)
    : (c: seq<byte>)
    requires |nonce| <= 15 && macLen <= 16 && GoodKey(w, keysize)
    ensures |c| == |payload| + macLen
  {
    ApplyCtr(payload, w, keysize, PayloadCounter(nonce, macLen)) +
    ApplyCtr(Tag(payload, assoc, nonce, macLen, w, keysize), w, keysize, FirstCounter(nonce))
  }

  /** What decryption recovers before it looks at the tag. */
  function Recovered(c: seq<byte>, nonce: seq<byte>, macLen: nat, w: seq<word>, keysize: int): (p: seq<byte>)
    requires |nonce| <= 15 && macLen <= |c| && GoodKey(w, keysize)
    ensures |p| == |c| - macLen
  {
    ApplyCtr(c[..|c| - macLen], w, keysize, PayloadCounter(nonce, macLen))
  }

  /** The tag received with the ciphertext is the tag of the recovered payload. */
  predicate Authentic(c: seq<byte>, assoc: seq<byte>, nonce: seq<byte>, macLen: nat, w: seq<word>, keysize: int)
    requires |nonce| <= 15 && macLen <= 16 && macLen <= |c| && GoodKey(w, keysize)
  {
    ApplyCtr(c[|c| - macLen..], w, keysize, FirstCounter(nonce)) ==
    Tag(Recovered(c, nonce, macLen, w, keysize), assoc, nonce, macLen, w, keysize)
  }

  lemma SealParts(payload: seq<byte>, assoc: seq<byte>, nonce: seq<byte>, macLen: nat, w: seq<word>, keysize: int)
    requires |nonce| <= 15 && macLen <= 16 && GoodKey(w, keysize)
    ensures var c := Seal(payload, assoc, nonce, macLen, w, keysize);
            c[..|payload|] == ApplyCtr(payload, w, keysize, PayloadCounter(nonce, macLen)) &&
            c[|payload|..] == ApplyCtr(Tag(payload, assoc, nonce, macLen, w, keysize), w, keysize, FirstCounter(nonce))
  {
    hide ApplyCtr, Tag, PayloadCounter, FirstCounter;
  }

  /** A sealed message opens to the payload and is accepted. */
  lemma OpenUndoesSeal(payload: seq<byte>, assoc: seq<byte>, nonce: seq<byte>, macLen: nat, w: seq<word>, keysize: int)
    requires |nonce| <= 15 && macLen <= 16 && GoodKey(w, keysize)
    ensures var c := Seal(payload, assoc, nonce, macLen, w, keysize);
            Recovered(c, nonce, macLen, w, keysize) == payload && Authentic(c, assoc, nonce, macLen, w, keysize)
  {
    hide ApplyCtr, Tag, PayloadCounter, FirstCounter, Seal;
    SealParts(payload, assoc, nonce, macLen, w, keysize);
    CtrInvolution(payload, w, keysize, PayloadCounter(nonce, macLen));
    CtrInvolution(Tag(payload, assoc, nonce, macLen, w, keysize), w, keysize, FirstCounter(nonce));
  }

  /** Exactly the outputs of sealing are accepted, and only for the payload sealed in them. */
  lemma AcceptsExactlySealed(c: seq<byte>, assoc: seq<byte>, nonce: seq<byte>, macLen: nat, w: seq<word>, keysize: int)
    requires |nonce| <= 15 && macLen <= 16 && macLen <= |c| && GoodKey(w, keysize)
    ensures Authentic(c, assoc, nonce, macLen, w, keysize) <==>
            c == Seal(Recovered(c, nonce, macLen, w, keysize), assoc, nonce, macLen, w, keysize)
    ensures Authentic(c, assoc, nonce, macLen, w, keysize) <==>
            exists p :: c == Seal(p, assoc, nonce, macLen, w, keysize)
  {
    hide ApplyCtr, Tag, PayloadCounter, FirstCounter, Seal;
    var p := Recovered(c, nonce, macLen, w, keysize);
    SealParts(p, assoc, nonce, macLen, w, keysize);
    CtrInvolution(c[..|c| - macLen], w, keysize, PayloadCounter(nonce, macLen));
    CtrInvolution(c[|c| - macLen..], w, keysize, FirstCounter(nonce));
    assert c == c[..|p|] + c[|p|..];
    var s := Seal(p, assoc, nonce, macLen, w, keysize);
    assert s == s[..|p|] + s[|p|..];
    forall q | c == Seal(q, assoc, nonce, macLen, w, keysize)
      ensures Authentic(c, assoc, nonce, macLen, w, keysize)
    {
      OpenUndoesSeal(q, assoc, nonce, macLen, w, keysize);
    }
  }

  // ---------- Counters ----------

  /** How far the payload's first counter block is from the MAC's: one for MACs of up to
      fourteen bytes, while longer ones leave the counter block as it is. */
  function PayloadOffset(macLen: nat): nat {
    if macLen <= 14 then 1 else 0
  }

  lemma PayloadCounterIsOffset(nonce: seq<byte>, macLen: nat)
    requires ValidNonceLen(|nonce|)
    ensures PayloadCounter(nonce, macLen) == CounterBlock(FirstCounter(nonce), 16, PayloadOffset(macLen))
  {
    hide IncrementIv, CounterBlock, ByteOf;
    var first := FirstCounter(nonce);
    CounterBlockZero(first, 16);
    if macLen <= 14 {
      IncrementOfZeroEnd(first, 15 - macLen);
      IncrementOfZeroEnd(first, 16);
      CounterBlockNext(first, 16, 0);
    } else {
      NoIncrement(first, 15 - macLen);
    }
  }

  lemma NoIncrement(iv: Block, c: int)
    requires c <= 0
    ensures IncrementIv(iv, c) == iv
  {
  }

  lemma ManyCounters()
    ensures Pow256(16) > 0x1_0000_0000
  {
    assert Pow256(4) == 0x1_0000_0000;
    assert Pow256(8) == 0x1_0000_0000 * 0x1_0000_0000;
    assert Pow256(12) == 0x1_0000_0000 * Pow256(8);
    assert Pow256(16) == 0x1_0000_0000 * Pow256(12);
  }

  /** Payload block j, of any payload of 32-bit length, shares the MAC's counter block just
      when it is the first block and the MAC is longer than fourteen bytes. */
  lemma PayloadAvoidsMacCounter(nonce: seq<byte>, macLen: nat, j: nat)
    requires ValidNonceLen(|nonce|) && j < 0x1_0000_0000
    ensures CounterBlock(PayloadCounter(nonce, macLen), 16, j) != FirstCounter(nonce) <==> macLen <= 14 || j > 0
  {
    hide CounterBlock, PayloadCounter, FirstCounter, Pow256, Wrap;
    var first, offset := FirstCounter(nonce), PayloadOffset(macLen);
    PayloadCounterIsOffset(nonce, macLen);
    CounterBlockAdd(first, 16, offset, j);
    CounterBlockZero(first, 16);
    CounterBlocksRepeat(first, 16, 0, offset + j);
    ManyCounters();
    WrapSmall(offset + j, 16);
  }

  /** With a MAC of up to fourteen bytes, payload block j is encrypted under flags, nonce and
      the number j + 1, as long as that number fits the bytes the nonce leaves. */
  lemma PayloadCounterLayout(nonce: seq<byte>, macLen: nat, j: nat)
    requires ValidNonceLen(|nonce|) && macLen <= 14
    requires j + 1 < Pow256(15 - |nonce|)
    ensures CounterBlock(PayloadCounter(nonce, macLen), 16, j) ==
            FirstCounter(nonce)[..1 + |nonce|] + Digits(j + 1, 15 - |nonce|)
  {
    hide CounterBlock, PayloadCounter, FirstCounter, Pow256, Digits, BigEndian;
    var first, q := FirstCounter(nonce), 15 - |nonce|;
    PayloadCounterIsOffset(nonce, macLen);
    CounterBlockAdd(first, 16, 1, j);
    FirstCounterEndsInZeros(nonce);
    CountIntoZeros(first, q, j + 1);
  }

  lemma FirstCounterEndsInZeros(nonce: seq<byte>)
    requires ValidNonceLen(|nonce|)
    ensures FirstCounter(nonce)[1 + |nonce|..] == Zeros(15 - |nonce|)
  {
    hide ByteOf;
  }

  lemma {:induction false} ZerosAreZero(q: nat)
    ensures BigEndian(Zeros(q)) == 0
  {
    if q > 0 {
      assert Zeros(q)[..q - 1] == Zeros(q - 1);
      ZerosAreZero(q - 1);
    }
  }

  /** Counting a block that ends in q zero bytes fills those bytes. */
  lemma CountIntoZeros(first: Block, q: nat, v: nat)
    requires q <= 16 && first[16 - q..] == Zeros(q) && v < Pow256(q)
    ensures CounterBlock(first, 16, v) == first[..16 - q] + Digits(v, q)
  {
    hide Pow256, Digits, BigEndian, Wrap;
    var front := first[..16 - q];
    assert first == front + Zeros(q) && first[0..] == first && first[..0] == [];
    BigEndianOfJoin(front, Zeros(q));
    ZerosAreZero(q);
    var n := BigEndian(front) * Pow256(q) + v;
    DigitsOfSum(BigEndian(front), v, 16 - q, q);
    DigitsOfBigEndian(front);
    BigEndianOfJoin(front, Digits(v, q));
    BigEndianBound(front + Digits(v, q));
    BigEndianOfDigits(v, q);
    WrapSmall(v, q);
    WrapSmall(n, 16);
  }
}

/**
 CCM byte by byte: where everything lies in the formatted string, which counter blocks encrypt a
 message, and that the blocks of different nonces never meet.
 */
module CcmBytes {
  import opened Bytes
  import opened Counter
  import opened Cipher
  import opened Cbc
  import opened Ctr
  import opened Ccm

  // ---------- The formatted string ----------

  /** The first block: flags, nonce, zeros, and the low sixteen bits of the payload length.  Decryption
      also uses it with lengths that the standard does not allow. */
  lemma FirstBlockLayout(nonce: seq<byte>, assocLen: nat, payloadLen: nat, macLen: nat)
    requires |nonce| <= 13 && macLen <= 16
    ensures var f := FirstBlock(nonce, assocLen, payloadLen, macLen);
            var macField := if macLen == 0 then 7 else if macLen == 1 then 0 else macLen / 2 - 1;
            Value(f[0]) == (if assocLen > 0 then 64 else 0) + 8 * macField + (14 - |nonce|) % 8 &&
            f[1..1 + |nonce|] == nonce && (forall k :: 1 + |nonce| <= k < 14 ==> f[k] == 0) &&
            256 * Value(f[14]) + Value(f[15]) == payloadLen % 65536
  {
    hide ByteOf, Value;
    AnyMacField(macLen);
    ValueOfByte((if assocLen > 0 then 64 else 0) + 8 * MacField(macLen) + SizeField(|nonce|));
    ValueOfByte(payloadLen / 256 % 256);
    ValueOfByte(payloadLen % 256);
    TwoDigits(payloadLen);
  }

  lemma AnyMacField(macLen: nat)
    requires macLen <= 16
    ensures MacField(macLen) == if macLen == 0 then 7 else if macLen == 1 then 0 else macLen / 2 - 1
  {
  }

  /** Every byte of the formatted string, where the payload begins on a block boundary. */
  lemma FormattedLayout(nonce: seq<byte>, assoc: seq<byte>, payload: seq<byte>, macLen: nat)
    requires ValidNonceLen(|nonce|)
    ensures var f, a, p := Formatted(nonce, assoc, payload, macLen), |assoc|, |payload|;
            var at := 16 + 16 * ((a + 2) / 16 + 1);
            |f| == at + 16 * ((p + 15) / 16) && f[..16] == FirstBlock(nonce, a, p, macLen) &&
            256 * Value(f[16]) + Value(f[17]) == a % 65536 && f[18..18 + a] == assoc &&
            (forall k :: 18 + a <= k < at ==> f[k] == 0) &&
            f[at..at + p] == payload && forall k :: at + p <= k < |f| ==> f[k] == 0
  {
    hide FirstBlock, Value, ByteOf, PayloadField, AssocField, FormattedLength;
    LengthOfFormatted(nonce, assoc, payload, macLen);
    AssocLayout(assoc);
    var first, field := FirstBlock(nonce, |assoc|, |payload|, macLen), AssocField(assoc, 16);
    var front := first + field;
    PayloadLayout(payload, |front|);
    assert FormattedLength(|assoc|, |payload|) == |front| + 16 * ((|payload| + 15) / 16) by {
      LengthParts(|assoc|, |payload|);
    }
    assert Formatted(nonce, assoc, payload, macLen) == front + PayloadField(payload, |front|);
  }

  lemma LengthParts(a: nat, p: nat)
    ensures FormattedLength(a, p) == 16 + 16 * ((a + 2) / 16 + 1) + 16 * ((p + 15) / 16)
    ensures AssocBlocks(a) == (a + 2) / 16 + 1
  {
  }

  lemma AssocLayout(assoc: seq<byte>)
    ensures var g, a := AssocField(assoc, 16), |assoc|;
            |g| == 16 * ((a + 2) / 16 + 1) && 256 * Value(g[0]) + Value(g[1]) == a % 65536 &&
            g[2..2 + a] == assoc && forall k :: 2 + a <= k < |g| ==> g[k] == 0
  {
    hide Value, ByteOf;
    ValueOfByte(|assoc| / 256 % 256);
    ValueOfByte(|assoc| % 256);
    TwoDigits(|assoc|);
    AssocPadding(|assoc|);
  }

  lemma PayloadLayout(payload: seq<byte>, start: nat)
    ensures var g := PayloadField(payload, start);
            |g| >= |payload| && g[..|payload|] == payload && forall k :: |payload| <= k < |g| ==> g[k] == 0
  {
  }

  // ---------- Counter blocks ----------

  /** Flags, nonce, and a number in the bytes the nonce leaves, appendix A.3 of NIST SP 800-38C. */
  function NumberedBlock(nonce: seq<byte>, m: nat): Block
    requires ValidNonceLen(|nonce|)
  {
    [ByteOf(14 - |nonce|)] + nonce + Digits(m, 15 - |nonce|)
  }

  lemma ZeroDigits(q: nat)
    ensures Digits(0, q) == Zeros(q)
  {
    hide Digits, BigEndian;
    ZerosAreZero(q);
    DigitsOfBigEndian(Zeros(q));
  }

  lemma FirstIsNumbered(nonce: seq<byte>)
    requires ValidNonceLen(|nonce|)
    ensures FirstCounter(nonce) == NumberedBlock(nonce, 0)
  {
    hide ByteOf, Digits;
    ZeroDigits(15 - |nonce|);
  }

  /** Payload block j is encrypted under number j + 1, or j for MACs of more than fourteen bytes. */
  lemma PayloadIsNumbered(nonce: seq<byte>, macLen: nat, j: nat)
    requires ValidNonceLen(|nonce|) && j + PayloadOffset(macLen) < Pow256(15 - |nonce|)
    ensures CounterBlock(PayloadCounter(nonce, macLen), 16, j) == NumberedBlock(nonce, j + PayloadOffset(macLen))
  {
    hide CounterBlock, PayloadCounter, FirstCounter, Pow256, Digits, BigEndian, ByteOf;
    var first, q, offset := FirstCounter(nonce), 15 - |nonce|, PayloadOffset(macLen);
    PayloadCounterIsOffset(nonce, macLen);
    CounterBlockAdd(first, 16, offset, j);
    FirstCounterEndsInZeros(nonce);
    CountIntoZeros(first, q, offset + j);
    FirstIsNumbered(nonce);
  }

  /** Blocks of different nonces, of whatever lengths, and blocks of one nonce with different numbers
      never coincide. */
  lemma NumberedBlocksDiffer(nonce: seq<byte>, m: nat, nonce': seq<byte>, m': nat)
    requires ValidNonceLen(|nonce|) && m < Pow256(15 - |nonce|)
    requires ValidNonceLen(|nonce'|) && m' < Pow256(15 - |nonce'|)
    ensures NumberedBlock(nonce, m) == NumberedBlock(nonce', m') <==> nonce == nonce' && m == m'
  {
    hide Digits, BigEndian, ByteOf, Pow256, Value;
    var b, b' := NumberedBlock(nonce, m), NumberedBlock(nonce', m');
    ValueOfByte(14 - |nonce|);
    ValueOfByte(14 - |nonce'|);
    if b == b' {
      assert b[0] == b'[0];
      assert |nonce| == |nonce'|;
      assert b[1..1 + |nonce|] == nonce && b'[1..1 + |nonce|] == nonce';
      assert b[1 + |nonce|..] == Digits(m, 15 - |nonce|) && b'[1 + |nonce|..] == Digits(m', 15 - |nonce|);
      BigEndianOfDigits(m, 15 - |nonce|);
      BigEndianOfDigits(m', 15 - |nonce|);
      WrapSmall(m, 15 - |nonce|);
      WrapSmall(m', 15 - |nonce|);
    }
  }

  /** No block that encrypts anything under one nonce, payload or tag, encrypts anything under
      another, as long as the block numbers fit the bytes the nonces leave. */
  lemma NoncesShareNoBlock(nonce: seq<byte>, macLen: nat, j: nat, nonce': seq<byte>, macLen': nat, j': nat)
    requires ValidNonceLen(|nonce|) && j + 1 < Pow256(15 - |nonce|)
    requires ValidNonceLen(|nonce'|) && j' + 1 < Pow256(15 - |nonce'|)
    requires nonce != nonce'
    ensures var used := {FirstCounter(nonce), CounterBlock(PayloadCounter(nonce, macLen), 16, j)};
            var used' := {FirstCounter(nonce'), CounterBlock(PayloadCounter(nonce', macLen'), 16, j')};
            used !! used'
  {
    hide CounterBlock, PayloadCounter, FirstCounter, Pow256, NumberedBlock;
    FirstIsNumbered(nonce);
    FirstIsNumbered(nonce');
    PayloadIsNumbered(nonce, macLen, j);
    PayloadIsNumbered(nonce', macLen', j');
    var m, m' := j + PayloadOffset(macLen), j' + PayloadOffset(macLen');
    NumberedBlocksDiffer(nonce, 0, nonce', 0);
    NumberedBlocksDiffer(nonce, 0, nonce', m');
    NumberedBlocksDiffer(nonce, m, nonce', 0);
    NumberedBlocksDiffer(nonce, m, nonce', m');
  }

  // ---------- The sealed message ----------

  /** Byte i of a sealed message: a byte of the payload under the block with the number of its block,
      then a byte of the last block of the CBC encryption of the formatted string under number 0. */
  lemma SealBytes(payload: seq<byte>, assoc: seq<byte>, nonce: seq<byte>, macLen: nat, w: seq<word>, keysize: int, i: nat)
    requires ValidNonceLen(|nonce|) && ValidMacLen(macLen) && GoodKey(w, keysize) && i < |payload| + macLen
    requires i < |payload| ==> i / 16 + PayloadOffset(macLen) < Pow256(15 - |nonce|)
    ensures var c, p := Seal(payload, assoc, nonce, macLen, w, keysize), |payload|;
            c[i] == if i < p then payload[i] ^ Encrypt(NumberedBlock(nonce, i / 16 + PayloadOffset(macLen)), w, keysize)[i % 16]
                    else LastBlock(CbcEncrypt(Formatted(nonce, assoc, payload, macLen), w, keysize, Zeros(16)))[i - p]
                         ^ Encrypt(NumberedBlock(nonce, 0), w, keysize)[i - p]
  {
    hide Encrypt, Seal, Formatted, CbcEncrypt, Pow256, NumberedBlock, PayloadOffset, LastBlock;
    if i < |payload| {
      PayloadByte(payload, assoc, nonce, macLen, w, keysize, i);
    } else {
      TagByte(payload, assoc, nonce, macLen, w, keysize, i - |payload|);
    }
  }

  lemma PayloadByte(payload: seq<byte>, assoc: seq<byte>, nonce: seq<byte>, macLen: nat, w: seq<word>, keysize: int, i: nat)
    requires ValidNonceLen(|nonce|) && ValidMacLen(macLen) && GoodKey(w, keysize) && i < |payload|
    requires i / 16 + PayloadOffset(macLen) < Pow256(15 - |nonce|)
    ensures Seal(payload, assoc, nonce, macLen, w, keysize)[i] ==
            payload[i] ^ Encrypt(NumberedBlock(nonce, i / 16 + PayloadOffset(macLen)), w, keysize)[i % 16]
  {
    hide Encrypt, ApplyCtr, PayloadCounter, FirstCounter, Pow256, NumberedBlock, PayloadOffset, KeyBlock, Tag, Seal;
    var c := Seal(payload, assoc, nonce, macLen, w, keysize);
    SealParts(payload, assoc, nonce, macLen, w, keysize);
    assert c[i] == c[..|payload|][i];
    CtrAt(payload, i, w, keysize, PayloadCounter(nonce, macLen), i / 16);
    PayloadKeyBlock(nonce, macLen, i / 16, w, keysize);
  }

  lemma TagByte(payload: seq<byte>, assoc: seq<byte>, nonce: seq<byte>, macLen: nat, w: seq<word>, keysize: int, k: nat)
    requires ValidNonceLen(|nonce|) && ValidMacLen(macLen) && GoodKey(w, keysize) && k < macLen
    ensures Seal(payload, assoc, nonce, macLen, w, keysize)[|payload| + k] ==
            LastBlock(CbcEncrypt(Formatted(nonce, assoc, payload, macLen), w, keysize, Zeros(16)))[k]
            ^ Encrypt(NumberedBlock(nonce, 0), w, keysize)[k]
  {
    hide Encrypt, ApplyCtr, Formatted, PayloadCounter, FirstCounter, CbcMac, CbcEncrypt, NumberedBlock, KeyBlock, Seal;
    var c, tag := Seal(payload, assoc, nonce, macLen, w, keysize), Tag(payload, assoc, nonce, macLen, w, keysize);
    SealParts(payload, assoc, nonce, macLen, w, keysize);
    assert c[|payload| + k] == c[|payload|..][k];
    CtrAt(tag, k, w, keysize, FirstCounter(nonce), 0);
    TagKeyBlock(nonce, w, keysize);
    FormattedNotEmpty(nonce, assoc, payload, macLen);
    MacIsLastCipherBlock(Formatted(nonce, assoc, payload, macLen), w, keysize, Zeros(16));
  }

  function LastBlock(c: seq<byte>): Block
    requires |c| >= 16
  {
    c[|c| - 16..]
  }

  lemma FormattedNotEmpty(nonce: seq<byte>, assoc: seq<byte>, payload: seq<byte>, macLen: nat)
    requires |nonce| <= 15
    ensures |Formatted(nonce, assoc, payload, macLen)| >= 16
  {
    hide FirstBlock, AssocField, PayloadField;
  }

  lemma PayloadKeyBlock(nonce: seq<byte>, macLen: nat, j: nat, w: seq<word>, keysize: int)
    requires ValidNonceLen(|nonce|) && KeyFits(w, keysize) && j + PayloadOffset(macLen) < Pow256(15 - |nonce|)
    ensures KeyBlock(w, keysize, PayloadCounter(nonce, macLen), j) ==
            Encrypt(NumberedBlock(nonce, j + PayloadOffset(macLen)), w, keysize)
  {
    hide Encrypt, PayloadCounter, Pow256, NumberedBlock, CounterBlock, PayloadOffset;
    PayloadIsNumbered(nonce, macLen, j);
  }

  lemma TagKeyBlock(nonce: seq<byte>, w: seq<word>, keysize: int)
    requires ValidNonceLen(|nonce|) && KeyFits(w, keysize)
    ensures KeyBlock(w, keysize, FirstCounter(nonce), 0) == Encrypt(NumberedBlock(nonce, 0), w, keysize)
  {
    hide Encrypt, FirstCounter, NumberedBlock, CounterBlock;
    CounterBlockZero(FirstCounter(nonce), 16);
    FirstIsNumbered(nonce);
  }

  /** What decryption recovers, whether the tag is right or not. */
  lemma RecoveredBytes(c: seq<byte>, nonce: seq<byte>, macLen: nat, w: seq<word>, keysize: int, i: nat)
    requires ValidNonceLen(|nonce|) && GoodKey(w, keysize) && i + macLen < |c|
    requires i / 16 + PayloadOffset(macLen) < Pow256(15 - |nonce|)
    ensures Recovered(c, nonce, macLen, w, keysize)[i] ==
            c[i] ^ Encrypt(NumberedBlock(nonce, i / 16 + PayloadOffset(macLen)), w, keysize)[i % 16]
  {
    hide Encrypt, ApplyCtr, PayloadCounter, Pow256, NumberedBlock, PayloadOffset, KeyBlock;
    CtrAt(c[..|c| - macLen], i, w, keysize, PayloadCounter(nonce, macLen), i / 16);
    PayloadKeyBlock(nonce, macLen, i / 16, w, keysize);
  }
}

/**
 Cipher block chaining and its MAC, section 6.2 of NIST SP 800-38A.
 */
module Cbc {
  import opened Bytes
  import opened Cipher

  /** The array holds enough schedule words for the key size, and both directions of the
      block cipher use the same number of rounds. */
  predicate GoodKey(w: seq<word>, keysize: int) {
    EncryptRounds(keysize) == DecryptRounds(keysize) && 4 * (EncryptRounds(keysize) + 1) <= |w|
  }

  /** C_j: the block chained into block j + 1; C_0 is the IV. */
  function Chain(p: seq<byte>, w: seq<word>, keysize: int, iv: Block, j: nat): Block
    requires GoodKey(w, keysize) && 16 * j <= |p|
  {
    if j == 0 then iv
    else Encrypt(XorBlock(BlockAt(p, j - 1), Chain(p, w, keysize, iv, j - 1)), w, keysize)
  }

  lemma ChainStart(p: seq<byte>, w: seq<word>, keysize: int, iv: Block)
    requires GoodKey(w, keysize)
    ensures Chain(p, w, keysize, iv, 0) == iv
  {
  }

  lemma ChainStep(p: seq<byte>, w: seq<word>, keysize: int, iv: Block, j: nat)
    requires GoodKey(w, keysize) && 16 * (j + 1) <= |p|
    ensures Chain(p, w, keysize, iv, j + 1) ==
            Encrypt(XorBlock(BlockAt(p, j), Chain(p, w, keysize, iv, j)), w, keysize)
  {
  }

  function CbcEncrypt(p: seq<byte>, w: seq<word>, keysize: int, iv: Block): (c: seq<byte>)
    requires GoodKey(w, keysize) && |p| % 16 == 0
    ensures |c| == |p|
  {
    seq(|p|, i requires 0 <= i < |p| => Chain(p, w, keysize, iv, i / 16 + 1)[i % 16])
  }

  /** C_{j-1}, where the block before the first is the IV. */
  function Previous(c: seq<byte>, iv: Block, j: nat): Block
    requires 16 * j <= |c|
  {
    if j == 0 then iv else BlockAt(c, j - 1)
  }

  /** P_j = D(C_j) xor C_{j-1} */
  function PlainBlock(c: seq<byte>, w: seq<word>, keysize: int, iv: Block, j: nat): Block
    requires GoodKey(w, keysize) && 16 * (j + 1) <= |c|
  {
    XorBlock(Decrypt(BlockAt(c, j), w, keysize), Previous(c, iv, j))
  }

  lemma PlainBlockIs(c: seq<byte>, w: seq<word>, keysize: int, iv: Block, j: nat)
    requires GoodKey(w, keysize) && 16 * (j + 1) <= |c|
    ensures PlainBlock(c, w, keysize, iv, j) ==
            XorBlock(Decrypt(BlockAt(c, j), w, keysize), Previous(c, iv, j))
  {
  }

  function CbcDecrypt(c: seq<byte>, w: seq<word>, keysize: int, iv: Block): (p: seq<byte>)
    requires GoodKey(w, keysize) && |c| % 16 == 0
    ensures |p| == |c|
  {
    seq(|c|, i requires 0 <= i < |c| => PlainBlock(c, w, keysize, iv, i / 16)[i % 16])
  }

  lemma CipherBlock(p: seq<byte>, w: seq<word>, keysize: int, iv: Block, j: nat)
    requires GoodKey(w, keysize) && |p| % 16 == 0 && 16 * (j + 1) <= |p|
    ensures BlockAt(CbcEncrypt(p, w, keysize, iv), j) == Chain(p, w, keysize, iv, j + 1)
  {
    hide Chain;
  }

  lemma RecoveredBlock(c: seq<byte>, w: seq<word>, keysize: int, iv: Block, j: nat)
    requires GoodKey(w, keysize) && |c| % 16 == 0 && 16 * (j + 1) <= |c|
    ensures BlockAt(CbcDecrypt(c, w, keysize, iv), j) == PlainBlock(c, w, keysize, iv, j)
  {
    hide PlainBlock;
  }

  /** C_j = E(P_j xor C_{j-1}), section 6.2 of NIST SP 800-38A, with the IV before the first block. */
  lemma CbcChains(p: seq<byte>, w: seq<word>, keysize: int, iv: Block, j: nat)
    requires GoodKey(w, keysize) && |p| % 16 == 0 && 16 * (j + 1) <= |p|
    ensures var c := CbcEncrypt(p, w, keysize, iv);
            var before := if j == 0 then iv else c[16 * j - 16..16 * j];
            c[16 * j..16 * j + 16] ==
            Encrypt(seq(16, k requires 0 <= k < 16 => p[16 * j + k] ^ before[k]), w, keysize)
  {
    hide Encrypt, CbcEncrypt, Chain;
    var c := CbcEncrypt(p, w, keysize, iv);
    var before := if j == 0 then iv else c[16 * j - 16..16 * j];
    CipherBlock(p, w, keysize, iv, j);
    ChainStep(p, w, keysize, iv, j);
    if j == 0 {
      ChainStart(p, w, keysize, iv);
    } else {
      CipherBlock(p, w, keysize, iv, j - 1);
    }
    assert XorBlock(BlockAt(p, j), before) == seq(16, k requires 0 <= k < 16 => p[16 * j + k] ^ before[k]);
  }

  lemma CbcRoundTrip(p: seq<byte>, w: seq<word>, keysize: int, iv: Block)
    requires GoodKey(w, keysize) && |p| % 16 == 0
    ensures CbcDecrypt(CbcEncrypt(p, w, keysize, iv), w, keysize, iv) == p
  {
    hide Encrypt, Decrypt, CbcEncrypt, CbcDecrypt, XorBlock;
    var c := CbcEncrypt(p, w, keysize, iv);
    forall j: nat | 16 * (j + 1) <= |p|
      ensures BlockAt(CbcDecrypt(c, w, keysize, iv), j) == BlockAt(p, j)
    {
      RecoveredBlock(c, w, keysize, iv, j);
      CipherBlock(p, w, keysize, iv, j);
      if j > 0 {
        CipherBlock(p, w, keysize, iv, j - 1);
      }
      var previous := Chain(p, w, keysize, iv, j);
      RoundsAgree(keysize);
      BlockRoundTrip(XorBlock(BlockAt(p, j), previous), w, keysize);
      XorBlockCancels(BlockAt(p, j), previous);
    }
    EqualByBlocks(CbcDecrypt(c, w, keysize, iv), p);
  }

  lemma CbcDecryptThenEncrypt(c: seq<byte>, w: seq<word>, keysize: int, iv: Block)
    requires GoodKey(w, keysize) && |c| % 16 == 0
    ensures CbcEncrypt(CbcDecrypt(c, w, keysize, iv), w, keysize, iv) == c
  {
    hide Encrypt, Decrypt, CbcEncrypt, CbcDecrypt, XorBlock;
    var p := CbcDecrypt(c, w, keysize, iv);
    forall j: nat | 16 * (j + 1) <= |c|
      ensures BlockAt(CbcEncrypt(p, w, keysize, iv), j) == BlockAt(c, j)
    {
      CipherBlock(p, w, keysize, iv, j);
      ChainOfDecryption(c, w, keysize, iv, j + 1);
    }
    EqualByBlocks(CbcEncrypt(p, w, keysize, iv), c);
  }

  /** Chaining over the recovered plaintext meets the ciphertext blocks again. */
  lemma {:induction false} ChainOfDecryption(c: seq<byte>, w: seq<word>, keysize: int, iv: Block, j: nat)
    requires GoodKey(w, keysize) && |c| % 16 == 0 && 16 * j <= |c|
    ensures Chain(CbcDecrypt(c, w, keysize, iv), w, keysize, iv, j) == Previous(c, iv, j)
  {
    hide Encrypt, Decrypt, CbcDecrypt, XorBlock;
    if j > 0 {
      ChainOfDecryption(c, w, keysize, iv, j - 1);
      RecoveredBlock(c, w, keysize, iv, j - 1);
      var previous := Previous(c, iv, j - 1);
      XorBlockCancels(Decrypt(BlockAt(c, j - 1), w, keysize), previous);
      RoundsAgree(keysize);
      BlockRoundTrip(BlockAt(c, j - 1), w, keysize);
    }
  }

  /** A recovered block depends on its own and the preceding ciphertext block only. */
  lemma CbcDependsOnTwoBlocks(c: seq<byte>, d: seq<byte>, w: seq<word>, keysize: int, iv: Block, j: nat)
    requires GoodKey(w, keysize) && |c| == |d| && |c| % 16 == 0 && 16 * (j + 1) <= |c|
    requires BlockAt(c, j) == BlockAt(d, j)
    requires j > 0 ==> BlockAt(c, j - 1) == BlockAt(d, j - 1)
    ensures BlockAt(CbcDecrypt(c, w, keysize, iv), j) == BlockAt(CbcDecrypt(d, w, keysize, iv), j)
  {
    hide Decrypt, CbcDecrypt, XorBlock;
    RecoveredBlock(c, w, keysize, iv, j);
    RecoveredBlock(d, w, keysize, iv, j);
  }

  /** A block changed in transit garbles its own plaintext block, whatever the change. */
  lemma CbcDetectsOwnBlock(c: seq<byte>, d: seq<byte>, w: seq<word>, keysize: int, iv: Block, j: nat)
    requires GoodKey(w, keysize) && |c| == |d| && |c| % 16 == 0 && 16 * (j + 1) <= |c|
    requires BlockAt(c, j) != BlockAt(d, j)
    requires j > 0 ==> BlockAt(c, j - 1) == BlockAt(d, j - 1)
    ensures BlockAt(CbcDecrypt(c, w, keysize, iv), j) != BlockAt(CbcDecrypt(d, w, keysize, iv), j)
  {
    hide Encrypt, Decrypt, CbcDecrypt, XorBlock;
    RecoveredBlock(c, w, keysize, iv, j);
    RecoveredBlock(d, w, keysize, iv, j);
    var previous := Previous(c, iv, j);
    XorBlockCancels(Decrypt(BlockAt(c, j), w, keysize), previous);
    XorBlockCancels(Decrypt(BlockAt(d, j), w, keysize), previous);
    RoundsAgree(keysize);
    BlockRoundTrip(BlockAt(c, j), w, keysize);
    BlockRoundTrip(BlockAt(d, j), w, keysize);
  }

  /** The MAC of a nonempty string of blocks. */
  function CbcMac(p: seq<byte>, w: seq<word>, keysize: int, iv: Block): Block
    requires GoodKey(w, keysize) && |p| % 16 == 0
  {
    Chain(p, w, keysize, iv, |p| / 16)
  }

  lemma MacIsLastCipherBlock(p: seq<byte>, w: seq<word>, keysize: int, iv: Block)
    requires GoodKey(w, keysize) && |p| % 16 == 0 && p != []
    ensures CbcMac(p, w, keysize, iv) == CbcEncrypt(p, w, keysize, iv)[|p| - 16..]
  {
    hide Chain, CbcEncrypt;
    var j := |p| / 16 - 1;
    CipherBlock(p, w, keysize, iv, j);
    assert 16 * j == |p| - 16;
  }

  /** The chain runs over the blocks of the first part, then over those of the second. */
  lemma {:induction false} ChainSplits(p: seq<byte>, q: seq<byte>, w: seq<word>, keysize: int, iv: Block, j: nat)
    requires GoodKey(w, keysize) && |p| % 16 == 0 && 16 * j <= |q|
    ensures Chain(p + q, w, keysize, iv, |p| / 16 + j) ==
            Chain(q, w, keysize, CbcMac(p, w, keysize, iv), j)
    decreases j
  {
    hide Encrypt, XorBlock;
    if j == 0 {
      ChainPrefix(p, q, w, keysize, iv, |p| / 16);
    } else {
      ChainSplits(p, q, w, keysize, iv, j - 1);
      var at := |p| / 16 + j - 1;
      assert 16 * at == |p| + 16 * (j - 1);
      assert BlockAt(p + q, at) == BlockAt(q, j - 1);
    }
  }

  lemma {:induction false} ChainPrefix(p: seq<byte>, q: seq<byte>, w: seq<word>, keysize: int, iv: Block, j: nat)
    requires GoodKey(w, keysize) && 16 * j <= |p|
    ensures Chain(p + q, w, keysize, iv, j) == Chain(p, w, keysize, iv, j)
    decreases j
  {
    hide Encrypt, XorBlock;
    if j > 0 {
      ChainPrefix(p, q, w, keysize, iv, j - 1);
      assert BlockAt(p + q, j - 1) == BlockAt(p, j - 1);
    }
  }

  /** A message can be authenticated in two parts, the first MAC serving as second IV. */
  lemma MacSplits(p: seq<byte>, q: seq<byte>, w: seq<word>, keysize: int, iv: Block)
    requires GoodKey(w, keysize) && |p| % 16 == 0 && |q| % 16 == 0
    ensures CbcMac(p + q, w, keysize, iv) == CbcMac(q, w, keysize, CbcMac(p, w, keysize, iv))
  {
    hide Chain;
    assert |p + q| / 16 == |p| / 16 + |q| / 16;
    ChainSplits(p, q, w, keysize, iv, |q| / 16);
  }

  // ---------- One block more ----------

  lemma ChainOfPrefix(p: seq<byte>, w: seq<word>, keysize: int, iv: Block, n: nat, j: nat)
    requires GoodKey(w, keysize) && 16 * j <= n <= |p|
    ensures Chain(p[..n], w, keysize, iv, j) == Chain(p, w, keysize, iv, j)
  {
    hide Chain;
    ChainPrefix(p[..n], p[n..], w, keysize, iv, j);
    assert p[..n] + p[n..] == p;
  }

  lemma EncryptNext(p: seq<byte>, w: seq<word>, keysize: int, iv: Block, j: nat)
    requires GoodKey(w, keysize) && |p| % 16 == 0 && 16 * (j + 1) <= |p|
    ensures CbcEncrypt(p[..16 * (j + 1)], w, keysize, iv) ==
            CbcEncrypt(p[..16 * j], w, keysize, iv) + Chain(p, w, keysize, iv, j + 1)
  {
    hide Chain;
    forall i | 0 <= i < 16 * (j + 1)
      ensures Chain(p[..16 * (j + 1)], w, keysize, iv, i / 16 + 1) == Chain(p, w, keysize, iv, i / 16 + 1)
    {
      ChainOfPrefix(p, w, keysize, iv, 16 * (j + 1), i / 16 + 1);
    }
    forall i | 0 <= i < 16 * j
      ensures Chain(p[..16 * j], w, keysize, iv, i / 16 + 1) == Chain(p, w, keysize, iv, i / 16 + 1)
    {
      ChainOfPrefix(p, w, keysize, iv, 16 * j, i / 16 + 1);
    }
  }

  lemma DecryptNext(c: seq<byte>, w: seq<word>, keysize: int, iv: Block, j: nat)
    requires GoodKey(w, keysize) && |c| % 16 == 0 && 16 * (j + 1) <= |c|
    ensures CbcDecrypt(c[..16 * (j + 1)], w, keysize, iv) ==
            CbcDecrypt(c[..16 * j], w, keysize, iv) + PlainBlock(c, w, keysize, iv, j)
  {
    hide PlainBlock, Decrypt, XorBlock;
    forall i | 0 <= i < 16 * (j + 1)
      ensures PlainBlock(c[..16 * (j + 1)], w, keysize, iv, i / 16) == PlainBlock(c, w, keysize, iv, i / 16)
    {
      PlainOfPrefix(c, w, keysize, iv, 16 * (j + 1), i / 16);
    }
    forall i | 0 <= i < 16 * j
      ensures PlainBlock(c[..16 * j], w, keysize, iv, i / 16) == PlainBlock(c, w, keysize, iv, i / 16)
    {
      PlainOfPrefix(c, w, keysize, iv, 16 * j, i / 16);
    }
  }

  lemma PlainOfPrefix(c: seq<byte>, w: seq<word>, keysize: int, iv: Block, n: nat, j: nat)
    requires GoodKey(w, keysize) && 16 * (j + 1) <= n <= |c|
    ensures PlainBlock(c[..n], w, keysize, iv, j) == PlainBlock(c, w, keysize, iv, j)
  {
    hide Decrypt, XorBlock;
    assert BlockAt(c[..n], j) == BlockAt(c, j);
    if j > 0 {
      assert BlockAt(c[..n], j - 1) == BlockAt(c, j - 1);
    }
  }
}

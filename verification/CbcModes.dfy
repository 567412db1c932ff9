/**
 The CBC entry points of the library: loops over buffers that carry the chaining value in a
 local block.  Input and output may be the same buffer.
 */
module CbcModes {
  import opened Bytes
  import opened Buffers
  import opened Cbc
  import Cipher
  import BlockCipher

  ghost predicate KeyArray(key: array<word>, keysize: int) {
    Cipher.EncryptRounds(keysize) == Cipher.DecryptRounds(keysize) &&
    4 * (Cipher.EncryptRounds(keysize) + 1) <= key.Length
  }

  /** Copies a block into the output at position `at`; what is left of the input stays,
      even when it shares the buffer. */
  method StoreBlock(input: array<byte>, ghost rest: seq<byte>, inLen: nat, block: array<byte>,
                    output: array<byte>, at: nat)
    requires block != output && block.Length == 16 && at + 16 <= output.Length
    requires block != input && at + 16 <= inLen <= input.Length && rest == input[at + 16..inLen]
    modifies output
    ensures output[..at + 16] == old(output[..at]) + block[..]
    ensures output[at + 16..] == old(output[at..])[16..]
    ensures input[at + 16..inLen] == rest
  {
    CopyBytes(block, 0, output, at, 16);
  }

  /** One step of chaining, common to encryption and MAC: the input block at position `at`
      is combined with the chaining block and encrypted, and the result is chained on. */
  method ChainOn(input: array<byte>, at: nat, bufIn: array<byte>, bufOut: array<byte>, ivBuf: array<byte>,
                 key: array<word>, keysize: int)
    requires KeyArray(key, keysize)
    requires at + 16 <= input.Length && bufIn.Length == bufOut.Length == ivBuf.Length == 16
    requires input != bufIn && bufIn != bufOut && bufIn != ivBuf && bufOut != ivBuf
    modifies bufIn, bufOut, ivBuf
    ensures bufOut[..] == ivBuf[..]
    ensures ivBuf[..] == Cipher.Encrypt(XorBlock(old(input[at..at + 16]), old(ivBuf[..])),
                                        BlockCipher.Schedule(key, keysize), keysize)
  {
    hide Cipher.Encrypt, Add;
    CopyBytes(input, at, bufIn, 0, 16);
    XorBuf(ivBuf, bufIn, 0, 16);
    assert bufIn[..] == XorBlock(old(input[at..at + 16]), old(ivBuf[..]));
    assert bufIn[..16] == bufIn[..];
    BlockCipher.AesEncrypt(bufIn, bufOut, key, keysize);
    CopyBytes(bufOut, 0, ivBuf, 0, 16);
    assert ivBuf[..] == bufOut[..16] == bufOut[..];
  }

  method AesEncryptCbc(input: array<byte>, inLen: nat, output: array<byte>, key: array<word>, keysize: int,
                       iv: array<byte>)
    returns (ok: bool)
    requires KeyArray(key, keysize)
    requires inLen <= input.Length && inLen <= output.Length && iv.Length >= 16
    modifies output
    ensures ok <==> inLen % 16 == 0
    ensures !ok ==> output[..] == old(output[..])
    ensures output[inLen..] == old(output[inLen..])
    ensures ok ==> (output[..inLen] ==
                    CbcEncrypt(old(input[..inLen]), BlockCipher.Schedule(key, keysize), keysize, old(iv[..16])))
  {
    hide Chain, Cipher.Encrypt, XorBlock, CbcEncrypt;
    if inLen % 16 != 0 {
      return false;
    }
    var blocks := inLen / 16;
    var bufIn, bufOut, ivBuf := new byte[16], new byte[16], new byte[16];
    ghost var p, w, start := input[..inLen], BlockCipher.Schedule(key, keysize), iv[..16];
    CopyBytes(iv, 0, ivBuf, 0, 16);
    assert ivBuf[..] == start;
    ChainStart(p, w, keysize, start);
    for i := 0 to blocks
      invariant ivBuf[..] == Chain(p, w, keysize, start, i)
      invariant input[16 * i..inLen] == p[16 * i..]
      invariant output[..16 * i] == CbcEncrypt(p[..16 * i], w, keysize, start)
      invariant output[16 * i..] == old(output[16 * i..])
    {
      ghost var rest := input[16 * i + 16..inLen];
      assert input[16 * i..16 * i + 16] == input[16 * i..inLen][..16] == BlockAt(p, i);
      assert rest == input[16 * i..inLen][16..] == p[16 * (i + 1)..];
      ChainOn(input, 16 * i, bufIn, bufOut, ivBuf, key, keysize);
      ChainStep(p, w, keysize, start, i);
      EncryptNext(p, w, keysize, start, i);
      StoreBlock(input, rest, inLen, bufOut, output, 16 * i);
    }
    assert p[..inLen] == p;
    return true;
  }

  /** `stack` is what the local block for the output holds before anything is written to it; with
      no input the code copies that. */
  method AesEncryptCbcMac(input: array<byte>, inLen: nat, output: array<byte>, key: array<word>, keysize: int,
                          iv: array<byte>, stack: Block)
    returns (ok: bool)
    requires KeyArray(key, keysize)
    requires inLen <= input.Length && output.Length >= 16 && iv.Length >= 16
    modifies output
    ensures ok <==> inLen % 16 == 0
    ensures !ok ==> output[..] == old(output[..])
    ensures output[16..] == old(output[16..])
    ensures ok ==>
              (output[..16] ==
               if inLen == 0 then stack
               else CbcMac(old(input[..inLen]), BlockCipher.Schedule(key, keysize), keysize, old(iv[..16])))
  {
    hide Chain, Cipher.Encrypt, XorBlock;
    if inLen % 16 != 0 {
      return false;
    }
    var blocks := inLen / 16;
    var bufIn, bufOut, ivBuf := new byte[16], new byte[16](k requires 0 <= k < 16 => stack[k]), new byte[16];
    assert bufOut[..] == stack;
    ghost var p, w, start := input[..inLen], BlockCipher.Schedule(key, keysize), iv[..16];
    CopyBytes(iv, 0, ivBuf, 0, 16);
    assert ivBuf[..] == start;
    ChainStart(p, w, keysize, start);
    for i := 0 to blocks
      invariant ivBuf[..] == Chain(p, w, keysize, start, i)
      invariant bufOut[..] == if i > 0 then ivBuf[..] else stack
      invariant output[..] == old(output[..]) && input[..inLen] == p
    {
      assert input[16 * i..16 * i + 16] == BlockAt(p, i);
      ChainOn(input, 16 * i, bufIn, bufOut, ivBuf, key, keysize);
      ChainStep(p, w, keysize, start, i);
    }
    CopyBytes(bufOut, 0, output, 0, 16);
    assert output[..16] == bufOut[..];
    return true;
  }

  method AesDecryptCbc(input: array<byte>, inLen: nat, output: array<byte>, key: array<word>, keysize: int,
                       iv: array<byte>)
    returns (ok: bool)
    requires KeyArray(key, keysize)
    requires inLen <= input.Length && inLen <= output.Length && iv.Length >= 16
    modifies output
    ensures ok <==> inLen % 16 == 0
    ensures !ok ==> output[..] == old(output[..])
    ensures output[inLen..] == old(output[inLen..])
    ensures ok ==> (output[..inLen] ==
                    CbcDecrypt(old(input[..inLen]), BlockCipher.Schedule(key, keysize), keysize, old(iv[..16])))
  {
    hide PlainBlock, Cipher.Decrypt, XorBlock, CbcDecrypt;
    if inLen % 16 != 0 {
      return false;
    }
    var blocks := inLen / 16;
    var bufIn, bufOut, ivBuf := new byte[16], new byte[16], new byte[16];
    ghost var c, w, start := input[..inLen], BlockCipher.Schedule(key, keysize), iv[..16];
    CopyBytes(iv, 0, ivBuf, 0, 16);
    assert ivBuf[..] == start;
    for i := 0 to blocks
      invariant ivBuf[..] == Previous(c, start, i)
      invariant input[16 * i..inLen] == c[16 * i..]
      invariant output[..16 * i] == CbcDecrypt(c[..16 * i], w, keysize, start)
      invariant output[16 * i..] == old(output[16 * i..])
    {
      ghost var rest := input[16 * i + 16..inLen];
      assert input[16 * i..16 * i + 16] == input[16 * i..inLen][..16] == BlockAt(c, i);
      assert rest == input[16 * i..inLen][16..] == c[16 * (i + 1)..];
      Unchain(input, 16 * i, bufIn, bufOut, ivBuf, key, keysize);
      PlainBlockIs(c, w, keysize, start, i);
      assert ivBuf[..] == Previous(c, start, i + 1);
      DecryptNext(c, w, keysize, start, i);
      StoreBlock(input, rest, inLen, bufOut, output, 16 * i);
    }
    assert c[..inLen] == c;
    return true;
  }

  /** One step of decryption: the recovered block is left in bufOut, the ciphertext block
      becomes the next chaining block. */
  method Unchain(input: array<byte>, at: nat, bufIn: array<byte>, bufOut: array<byte>, ivBuf: array<byte>,
                 key: array<word>, keysize: int)
    requires KeyArray(key, keysize)
    requires at + 16 <= input.Length && bufIn.Length == bufOut.Length == ivBuf.Length == 16
    requires input != bufIn && input != bufOut && bufIn != bufOut && bufIn != ivBuf && bufOut != ivBuf
    modifies bufIn, bufOut, ivBuf
    ensures bufOut[..] == XorBlock(Cipher.Decrypt(old(input[at..at + 16]), BlockCipher.Schedule(key, keysize), keysize),
                                   old(ivBuf[..]))
    ensures ivBuf[..] == old(input[at..at + 16])
  {
    hide Cipher.Decrypt, Add;
    CopyBytes(input, at, bufIn, 0, 16);
    assert bufIn[..16] == bufIn[..] == old(input[at..at + 16]);
    BlockCipher.AesDecrypt(bufIn, bufOut, key, keysize);
    XorBuf(ivBuf, bufOut, 0, 16);
    CopyBytes(bufIn, 0, ivBuf, 0, 16);
  }
}

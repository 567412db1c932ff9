/**
 Counter mode, section 6.5 of NIST SP 800-38A: the closed form, its consequences, and the
 library's loop over whole blocks with a partial last block.
 */
module Ctr {
  import opened Bytes
  import opened Buffers
  import opened Counter
  import opened Cipher
  import BlockCipher

  predicate KeyFits(w: seq<word>, keysize: int) {
    4 * (EncryptRounds(keysize) + 1) <= |w|
  }

  /** O_{j+1}: the output block for counter iv + j. */
  function KeyBlock(w: seq<word>, keysize: int, iv: Block, j: nat): Block
    requires KeyFits(w, keysize)
  {
    Encrypt(CounterBlock(iv, 16, j), w, keysize)
  }

  /** Byte i is combined with byte i mod 16 of the output block of counter iv + i / 16. */
  function ApplyCtr(s: seq<byte>, w: seq<word>, keysize: int, iv: Block): (r: seq<byte>)
    requires KeyFits(w, keysize)
    ensures |r| == |s|
  {
    seq(|s|, i requires 0 <= i < |s| => Add(s[i], KeyBlock(w, keysize, iv, i / 16)[i % 16]))
  }

  /** Counter mode is its own inverse. */
  lemma CtrInvolution(s: seq<byte>, w: seq<word>, keysize: int, iv: Block)
    requires KeyFits(w, keysize)
    ensures ApplyCtr(ApplyCtr(s, w, keysize, iv), w, keysize, iv) == s
  {
    hide Add, KeyBlock;
    forall i | 0 <= i < |s|
      ensures ApplyCtr(ApplyCtr(s, w, keysize, iv), w, keysize, iv)[i] == s[i]
    {
      AddCancels(s[i], KeyBlock(w, keysize, iv, i / 16)[i % 16]);
    }
  }

  lemma CtrOfPrefix(s: seq<byte>, n: nat, w: seq<word>, keysize: int, iv: Block)
    requires KeyFits(w, keysize) && n <= |s|
    ensures ApplyCtr(s[..n], w, keysize, iv) == ApplyCtr(s, w, keysize, iv)[..n]
  {
    hide Add, KeyBlock;
  }

  lemma CtrAt(s: seq<byte>, i: nat, w: seq<word>, keysize: int, iv: Block, j: nat)
    requires KeyFits(w, keysize) && i < |s| && 16 * j <= i < 16 * j + 16
    ensures ApplyCtr(s, w, keysize, iv)[i] == Add(s[i], KeyBlock(w, keysize, iv, j)[i - 16 * j])
  {
    hide Add, KeyBlock;
  }

  /** Byte i is combined with a byte of the encryption of any block that stands for the number iv + i / 16
      modulo 2^128. */
  lemma CtrBytes(s: seq<byte>, i: nat, w: seq<word>, keysize: int, iv: Block, b: Block)
    requires KeyFits(w, keysize) && i < |s| && BigEndian(b) == (BigEndian(iv) + i / 16) % Pow256(16)
    ensures ApplyCtr(s, w, keysize, iv)[i] == s[i] ^ Encrypt(b, w, keysize)[i % 16]
  {
    hide Encrypt, BigEndian, Pow256, Digits;
    DigitsOfBigEndian(b);
    assert iv[0..] == iv;
    assert CounterBlock(iv, 16, i / 16) == b;
  }

  /** A message can be processed in two parts, cut at a block boundary, when the second
      part starts from the counter advanced by the blocks of the first. */
  lemma CtrSplits(s: seq<byte>, t: seq<byte>, w: seq<word>, keysize: int, iv: Block)
    requires KeyFits(w, keysize) && |s| % 16 == 0
    ensures ApplyCtr(s + t, w, keysize, iv) ==
            ApplyCtr(s, w, keysize, iv) + ApplyCtr(t, w, keysize, CounterBlock(iv, 16, |s| / 16))
  {
    hide Add, Encrypt, CounterBlock, ApplyCtr;
    var n := |s| / 16;
    forall i | 0 <= i < |s|
      ensures ApplyCtr(s + t, w, keysize, iv)[i] == ApplyCtr(s, w, keysize, iv)[i]
    {
      CtrAt(s + t, i, w, keysize, iv, i / 16);
      CtrAt(s, i, w, keysize, iv, i / 16);
    }
    var next := CounterBlock(iv, 16, n);
    forall i | 0 <= i < |t|
      ensures ApplyCtr(s + t, w, keysize, iv)[|s| + i] == ApplyCtr(t, w, keysize, next)[i]
    {
      CounterBlockAdd(iv, 16, n, i / 16);
      CtrAt(s + t, |s| + i, w, keysize, iv, n + i / 16);
      CtrAt(t, i, w, keysize, next, i / 16);
    }
  }

  // ---------- The library's loop ----------

  /** Encrypts the counter and combines `count` bytes of it into the buffer. */
  method Mask(ivBuf: array<byte>, outBuf: array<byte>, buffer: array<byte>, at: nat, count: nat,
              key: array<word>, keysize: int)
    requires 4 * (EncryptRounds(keysize) + 1) <= key.Length
    requires ivBuf.Length == outBuf.Length == 16 && count <= 16 && at + count <= buffer.Length
    requires ivBuf != outBuf && outBuf != buffer && ivBuf != buffer
    modifies outBuf, buffer
    ensures var mask := Encrypt(ivBuf[..], BlockCipher.Schedule(key, keysize), keysize);
            forall k :: at <= k < at + count ==> buffer[k] == Add(old(buffer[k]), mask[k - at])
    ensures forall k :: 0 <= k < buffer.Length && !(at <= k < at + count) ==> buffer[k] == old(buffer[k])
  {
    hide Encrypt, Add;
    assert ivBuf[..16] == ivBuf[..];
    BlockCipher.AesEncrypt(ivBuf, outBuf, key, keysize);
    assert outBuf[..16] == Encrypt(ivBuf[..], BlockCipher.Schedule(key, keysize), keysize);
    XorBuf(outBuf, buffer, at, count);
  }

  /** The output buffer when `done` bytes of the message s have been replaced by those of r. */
  function Partly(before: seq<byte>, at: nat, s: seq<byte>, r: seq<byte>, done: nat): seq<byte>
    requires |s| == |r| && done <= |s| && at + |s| <= |before|
  {
    before[..at] + r[..done] + s[done..] + before[at + |s|..]
  }

  lemma PartlyNone(before: seq<byte>, now: seq<byte>, at: nat, s: seq<byte>, r: seq<byte>)
    requires |s| == |r| && at + |s| <= |before| == |now|
    requires now[at..at + |s|] == s
    requires forall k :: 0 <= k < |now| && !(at <= k < at + |s|) ==> now[k] == before[k]
    ensures now == Partly(before, at, s, r, 0)
  {
    assert now[..at] == before[..at];
    assert now[at + |s|..] == before[at + |s|..];
    assert now == now[..at] + now[at..at + |s|] + now[at + |s|..];
  }

  lemma PartlyAll(before: seq<byte>, at: nat, s: seq<byte>, r: seq<byte>)
    requires |s| == |r| && at + |s| <= |before|
    ensures var now := Partly(before, at, s, r, |s|);
            |now| == |before| && now[..at] == before[..at] && now[at..at + |s|] == r &&
            now[at + |s|..] == before[at + |s|..]
  {
  }

  /** Replacing the next bytes of the message. */
  lemma PartlyMore(before: seq<byte>, now: seq<byte>, at: nat, s: seq<byte>, r: seq<byte>, done: nat, more: nat)
    requires |s| == |r| && done + more <= |s| && at + |s| <= |before| && |now| == |before|
    requires forall k :: at + done <= k < at + done + more ==> now[k] == r[k - at]
    requires var last := Partly(before, at, s, r, done);
             forall k :: 0 <= k < |now| && !(at + done <= k < at + done + more) ==> now[k] == last[k]
    ensures now == Partly(before, at, s, r, done + more)
  {
  }

  /** Processes the next `count` bytes, which lie within block j of the message. */
  method MaskNext(ivBuf: array<byte>, outBuf: array<byte>, output: array<byte>, at: nat, idx: nat, count: nat,
                  key: array<word>, keysize: int, ghost before: seq<byte>, ghost s: seq<byte>, ghost iv: Block,
                  ghost j: nat)
    requires 4 * (EncryptRounds(keysize) + 1) <= key.Length
    requires ivBuf.Length == outBuf.Length == 16 && count <= 16 && idx == 16 * j && idx + count <= |s|
    requires at + |s| <= output.Length == |before|
    requires ivBuf != outBuf && outBuf != output && ivBuf != output
    requires ivBuf[..] == CounterBlock(iv, 16, j)
    requires output[..] ==
             Partly(before, at, s, ApplyCtr(s, BlockCipher.Schedule(key, keysize), keysize, iv), idx)
    modifies outBuf, output
    ensures output[..] ==
            Partly(before, at, s, ApplyCtr(s, BlockCipher.Schedule(key, keysize), keysize, iv), idx + count)
  {
    hide Encrypt, Add, ApplyCtr, CounterBlock;
    ghost var r := ApplyCtr(s, BlockCipher.Schedule(key, keysize), keysize, iv);
    ghost var last := output[..];
    Mask(ivBuf, outBuf, output, at + idx, count, key, keysize);
    forall k | at + idx <= k < at + idx + count
      ensures output[..][k] == r[k - at]
    {
      CtrAt(s, k - at, BlockCipher.Schedule(key, keysize), keysize, iv, j);
      assert last[k] == s[k - at];
    }
    PartlyMore(before, output[..], at, s, r, idx, count);
  }

  method AesEncryptCtr(input: array<byte>, from: nat, inLen: nat, output: array<byte>, at: nat,
                       key: array<word>, keysize: int, iv: array<byte>)
    requires 4 * (EncryptRounds(keysize) + 1) <= key.Length
    requires from + inLen <= input.Length && at + inLen <= output.Length && iv.Length == 16
    requires input == output ==> from == at
    requires iv != output
    modifies output
    ensures output[at..at + inLen] ==
            ApplyCtr(old(input[from..from + inLen]), BlockCipher.Schedule(key, keysize), keysize, iv[..])
    ensures output[..at] == old(output[..at])
    ensures output[at + inLen..] == old(output[at + inLen..])
  {
    hide Encrypt, Add, ApplyCtr, CounterBlock, Partly;
    ghost var s, w, start, before := input[from..from + inLen], BlockCipher.Schedule(key, keysize), iv[..], output[..];
    ghost var r := ApplyCtr(s, w, keysize, start);
    if input != output {
      CopyBytes(input, from, output, at, inLen);
    }
    assert output[at..at + inLen] == s;
    PartlyNone(before, output[..], at, s, r);
    var ivBuf, outBuf := new byte[16], new byte[16];
    CopyBytes(iv, 0, ivBuf, 0, 16);
    assert ivBuf[..] == start;
    CounterBlockZero(start, 16);
    var idx := 0;
    ghost var j := 0;
    if inLen > 16 {
      while idx < inLen - 16
        invariant idx == 16 * j && idx < inLen
        invariant ivBuf[..] == CounterBlock(start, 16, j)
        invariant output[..] == Partly(before, at, s, r, idx)
      {
        MaskNext(ivBuf, outBuf, output, at, idx, 16, key, keysize, before, s, start, j);
        CounterBlockNext(start, 16, j);
        IncrementIvInPlace(ivBuf, 16);
        idx, j := idx + 16, j + 1;
      }
    }
    MaskNext(ivBuf, outBuf, output, at, idx, inLen - idx, key, keysize, before, s, start, j);
    PartlyAll(before, at, s, r);
  }

  /** The library decrypts by encrypting again; CtrInvolution says why. */
  method AesDecryptCtr(input: array<byte>, from: nat, inLen: nat, output: array<byte>, at: nat,
                       key: array<word>, keysize: int, iv: array<byte>)
    requires 4 * (EncryptRounds(keysize) + 1) <= key.Length
    requires from + inLen <= input.Length && at + inLen <= output.Length && iv.Length == 16
    requires input == output ==> from == at
    requires iv != output
    modifies output
    ensures output[at..at + inLen] ==
            ApplyCtr(old(input[from..from + inLen]), BlockCipher.Schedule(key, keysize), keysize, iv[..])
    ensures output[..at] == old(output[..at])
    ensures output[at + inLen..] == old(output[at + inLen..])
  {
    AesEncryptCtr(input, from, inLen, output, at, key, keysize, iv);
  }
}

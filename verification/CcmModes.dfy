/**
 The CCM entry points of the library: the formatted string is built in a scratch buffer
 behind a moving end position, and payload and tag are processed in the caller's buffers.
 */
module CcmModes {
  import opened Bytes
  import opened Buffers
  import opened Counter
  import opened Cbc
  import opened Ctr
  import opened Ccm
  import opened KeyExpansion
  import CbcModes
  import Cipher
  import BlockCipher

  method CcmPrepareFirstCtrBlk(counter: array<byte>, nonce: array<byte>, nonceLen: nat)
    requires counter.Length == 16 && nonceLen <= 15 && nonceLen <= nonce.Length && counter != nonce
    modifies counter
    ensures counter[..] == FirstCounter(nonce[..nonceLen])
    ensures counter[0] as nat == (14 - nonceLen) % 8 && counter[1..1 + nonceLen] == nonce[..nonceLen]
    ensures forall k :: 1 + nonceLen <= k < 16 ==> counter[k] == 0
  {
    hide ByteOf;
    ValueOfByte(SizeField(nonceLen));
    ZeroBytes(counter, 0, 16);
    counter[0] := ByteOf(SizeField(nonceLen));
    CopyBytes(nonce, 0, counter, 1, nonceLen);
  }

  method CcmPrepareFirstFormatBlk(buf: array<byte>, assocLen: nat, payloadLen: nat, macLen: nat,
                                  nonce: array<byte>, nonceLen: nat)
    requires buf.Length >= 16 && nonceLen <= 15 && nonceLen <= nonce.Length && buf != nonce
    modifies buf
    ensures buf[..16] == FirstBlock(nonce[..nonceLen], assocLen, payloadLen, macLen)
    ensures nonceLen <= 13 ==>
              buf[1..1 + nonceLen] == nonce[..nonceLen] && (forall k :: 1 + nonceLen <= k < 14 ==> buf[k] == 0) &&
              256 * (buf[14] as nat) + buf[15] as nat == payloadLen % 65536
  {
    hide ByteOf;
    var flags := 8 * MacField(macLen) + SizeField(nonceLen);
    buf[0] := ByteOf(flags);
    if assocLen > 0 {
      ValueOfByte(flags);
      buf[0] := ByteOf(Value(buf[0]) + 0x40);
    }
    CopyBytes(nonce, 0, buf, 1, nonceLen);
    ZeroBytes(buf, 1 + nonceLen, 15 - nonceLen);
    buf[15] := ByteOf(payloadLen % 256);
    buf[14] := ByteOf(payloadLen / 256 % 256);
    StoredLength(payloadLen);
  }

  lemma StoredLength(v: nat)
    ensures 256 * Value(ByteOf(v / 256 % 256)) + Value(ByteOf(v % 256)) == v % 65536
  {
    hide ByteOf, Value;
    ValueOfByte(v / 256 % 256);
    ValueOfByte(v % 256);
    TwoDigits(v);
  }

  method CcmFormatAssocData(buf: array<byte>, endOfBuf: nat, assoc: array<byte>, assocLen: nat)
    returns (newEnd: nat)
    requires assocLen <= assoc.Length && buf != assoc
    requires endOfBuf + |AssocField(assoc[..assocLen], endOfBuf)| <= buf.Length
    modifies buf
    ensures newEnd == endOfBuf + |AssocField(assoc[..assocLen], endOfBuf)|
    ensures buf[..newEnd] == old(buf[..endOfBuf]) + AssocField(assoc[..assocLen], endOfBuf)
  {
    hide ByteOf;
    buf[endOfBuf + 1] := ByteOf(assocLen % 256);
    buf[endOfBuf] := ByteOf(assocLen / 256 % 256);
    newEnd := endOfBuf + 2;
    CopyBytes(assoc, 0, buf, newEnd, assocLen);
    newEnd := newEnd + assocLen;
    var pad := 16 - newEnd % 16;
    ZeroBytes(buf, newEnd, pad);
    newEnd := newEnd + pad;
  }

  method CcmFormatPayloadData(buf: array<byte>, endOfBuf: nat, payload: array<byte>, payloadLen: nat)
    returns (newEnd: nat)
    requires payloadLen <= payload.Length && buf != payload
    requires endOfBuf + |PayloadField(payload[..payloadLen], endOfBuf)| <= buf.Length
    modifies buf
    ensures newEnd == endOfBuf + |PayloadField(payload[..payloadLen], endOfBuf)|
    ensures buf[..newEnd] == old(buf[..endOfBuf]) + PayloadField(payload[..payloadLen], endOfBuf)
  {
    CopyBytes(payload, 0, buf, endOfBuf, payloadLen);
    newEnd := endOfBuf + payloadLen;
    var pad := newEnd % 16;
    if pad != 0 {
      pad := 16 - pad;
    }
    ZeroBytes(buf, newEnd, pad);
    newEnd := newEnd + pad;
  }

  /** Formats the message into the scratch buffer and leaves its MAC in `mac`. */
  method FormatAndMac(buf: array<byte>, payload: array<byte>, payloadLen: nat, assoc: array<byte>, assocLen: nat,
                      nonce: array<byte>, nonceLen: nat, macLen: nat, mac: array<byte>,
                      key: array<word>, keysize: int)
    requires CbcModes.KeyArray(key, keysize)
    requires payloadLen <= payload.Length && assocLen <= assoc.Length
    requires nonceLen <= nonce.Length && nonceLen <= 15 && mac.Length == 16
    requires FormattedLength(assocLen, payloadLen) <= buf.Length
    requires buf != payload && buf != assoc && buf != nonce && buf != mac
    modifies buf, mac
    ensures mac[..] == Mac(old(payload[..payloadLen]), old(assoc[..assocLen]), old(nonce[..nonceLen]), macLen,
                           BlockCipher.Schedule(key, keysize), keysize)
  {
    hide FirstBlock, AssocField, PayloadField, CbcMac, FormattedLength;
    ghost var p, a, n := payload[..payloadLen], assoc[..assocLen], nonce[..nonceLen];
    LengthOfFormatted(n, a, p, macLen);
    CcmPrepareFirstFormatBlk(buf, assocLen, payloadLen, macLen, nonce, nonceLen);
    var endOfBuf := CcmFormatAssocData(buf, 16, assoc, assocLen);
    endOfBuf := CcmFormatPayloadData(buf, endOfBuf, payload, payloadLen);
    assert buf[..endOfBuf] == Formatted(n, a, p, macLen);
    var tempIv := new byte[16];
    ZeroBytes(tempIv, 0, 16);
    assert tempIv[..16] == Zeros(16);
    var ok := CbcModes.AesEncryptCbcMac(buf, endOfBuf, mac, key, keysize, tempIv, Zeros(16));
    assert mac[..16] == mac[..];
  }

  /** Key setup into a local schedule array. */
  method SetupKey(keyStr: array<byte>, keysize: int) returns (key: array<word>)
    requires Cipher.SupportedKeySize(keysize) && 4 * KeyWords(keysize) <= keyStr.Length
    ensures fresh(key) && CbcModes.KeyArray(key, keysize)
    ensures BlockCipher.Schedule(key, keysize) == Expand(keyStr[..4 * KeyWords(keysize)], keysize)
  {
    hide Expand;
    key := new word[60];
    AesKeySetup(keyStr, key, keysize);
  }

  /** Lays payload and MAC side by side in the output. */
  method PutPayloadAndMac(payload: array<byte>, payloadLen: nat, mac: array<byte>, macLen: nat, output: array<byte>)
    requires payloadLen <= payload.Length && macLen <= mac.Length && payloadLen + macLen <= output.Length
    requires output != payload && output != mac
    modifies output
    ensures output[..payloadLen] == payload[..payloadLen]
    ensures output[payloadLen..] == mac[..macLen] + old(output[payloadLen + macLen..])
  {
    CopyBytes(payload, 0, output, 0, payloadLen);
    CopyBytes(mac, 0, output, payloadLen, macLen);
  }

  /** Runs CTR over the payload in place, from the counter block after the MAC's. */
  method CryptPayload(buffer: array<byte>, len: nat, counter: array<byte>, macLen: nat,
                      key: array<word>, keysize: int, ghost n: seq<byte>)
    requires CbcModes.KeyArray(key, keysize)
    requires len <= buffer.Length && macLen <= 16 && |n| <= 15
    requires counter.Length == 16 && counter[..] == FirstCounter(n) && counter != buffer
    modifies buffer
    ensures buffer[..len] ==
            ApplyCtr(old(buffer[..len]), BlockCipher.Schedule(key, keysize), keysize, PayloadCounter(n, macLen))
    ensures buffer[len..] == old(buffer[len..])
  {
    hide ApplyCtr, IncrementIv, FirstCounter;
    var tempIv := new byte[16];
    CopyBytes(counter, 0, tempIv, 0, 16);
    assert tempIv[..] == counter[..];
    IncrementIvInPlace(tempIv, 15 - macLen);
    AesEncryptCtr(buffer, 0, len, buffer, 0, key, keysize, tempIv);
  }

  /** Fills the output with the encrypted payload and the encrypted MAC. */
  method EncryptPayloadAndMac(payload: array<byte>, payloadLen: nat, mac: array<byte>, macLen: nat,
                              output: array<byte>, counter: array<byte>,
                              key: array<word>, keysize: int, ghost n: seq<byte>)
    requires CbcModes.KeyArray(key, keysize)
    requires payloadLen <= payload.Length && macLen <= mac.Length == 16 && payloadLen + macLen <= output.Length
    requires output != payload && output != mac && output != counter && |n| <= 15
    requires counter.Length == 16 && counter[..] == FirstCounter(n)
    modifies output
    ensures var w := BlockCipher.Schedule(key, keysize);
            output[..payloadLen + macLen] ==
            ApplyCtr(payload[..payloadLen], w, keysize, PayloadCounter(n, macLen)) +
            ApplyCtr(mac[..macLen], w, keysize, FirstCounter(n))
    ensures output[payloadLen + macLen..] == old(output[payloadLen + macLen..])
  {
    hide ApplyCtr, PayloadCounter, FirstCounter;
    PutPayloadAndMac(payload, payloadLen, mac, macLen, output);
    ghost var rest := output[payloadLen..];
    CryptPayload(output, payloadLen, counter, macLen, key, keysize, n);
    assert output[payloadLen..payloadLen + macLen] == rest[..macLen];
    AesEncryptCtr(output, payloadLen, macLen, output, payloadLen, key, keysize, counter);
    var outLen := payloadLen + macLen;
    assert output[..outLen] == output[..payloadLen] + output[payloadLen..outLen];
    assert output[outLen..] == rest[macLen..];
  }

  /** Decrypts the received tag, computes that of the recovered payload, and clears the
      payload when they differ. */
  method CheckMac(buf: array<byte>, plaintext: array<byte>, len: nat, assoc: array<byte>, assocLen: nat,
                  nonce: array<byte>, nonceLen: nat, macLen: nat, mac: array<byte>, counter: array<byte>,
                  key: array<word>, keysize: int)
    returns (macAuth: bool)
    requires CbcModes.KeyArray(key, keysize)
    requires len <= plaintext.Length && assocLen <= assoc.Length
    requires nonceLen <= nonce.Length && nonceLen <= 15 && macLen <= 16 == mac.Length == counter.Length
    requires FormattedLength(assocLen, len) <= buf.Length
    requires buf != plaintext && buf != assoc && buf != nonce && buf != mac && buf != counter
    requires mac != plaintext && mac != assoc && mac != nonce && mac != counter
    modifies buf, plaintext, mac
    ensures var w := BlockCipher.Schedule(key, keysize);
            macAuth <==> ApplyCtr(old(mac[..macLen]), w, keysize, old(counter[..])) ==
                         Tag(old(plaintext[..len]), old(assoc[..assocLen]), old(nonce[..nonceLen]), macLen, w, keysize)
    ensures plaintext[..len] == if macAuth then old(plaintext[..len]) else Zeros(len)
    ensures plaintext[len..] == old(plaintext[len..])
  {
    hide ApplyCtr, Mac;
    AesDecryptCtr(mac, 0, macLen, mac, 0, key, keysize, counter);
    var macBuf := new byte[16];
    FormatAndMac(buf, plaintext, len, assoc, assocLen, nonce, nonceLen, macLen, macBuf, key, keysize);
    assert macBuf[..macLen] == macBuf[..][..macLen];
    if mac[..macLen] == macBuf[..macLen] {
      macAuth := true;
    } else {
      macAuth := false;
      ZeroBytes(plaintext, 0, len);
    }
  }

  /** `mallocOk` says whether the scratch buffer could be allocated, and `bufLen` how many bytes
      it has: at least those asked for.  They are enough for the formatted message except in
      the case of Ccm.AllocationSuffices, where the buffer must happen to be longer. */
  method AesEncryptCcm(payload: array<byte>, payloadLen: nat, assoc: array<byte>, assocLen: nat,
                       nonce: array<byte>, nonceLen: nat, output: array<byte>, macLen: nat,
                       keyStr: array<byte>, keysize: int, mallocOk: bool, bufLen: nat)
    returns (ok: bool, outLen: nat)
    requires payloadLen + assocLen + 48 <= bufLen && FormattedLength(assocLen, payloadLen) <= bufLen
    requires Cipher.SupportedKeySize(keysize) && 4 * KeyWords(keysize) <= keyStr.Length
    requires payloadLen <= payload.Length && assocLen <= assoc.Length && nonceLen <= nonce.Length
    requires payloadLen + macLen <= output.Length && payload != output
    modifies output
    ensures ok <==> ValidMacLen(macLen) && ValidNonceLen(nonceLen) && assocLen <= 32768 && mallocOk
    ensures !ok ==> output[..] == old(output[..])
    ensures output[payloadLen + macLen..] == old(output[payloadLen + macLen..])
    ensures ok ==> outLen == payloadLen + macLen
    ensures ok ==>
              (output[..outLen] ==
               Seal(old(payload[..payloadLen]), old(assoc[..assocLen]), old(nonce[..nonceLen]), macLen,
                    Expand(old(keyStr[..4 * KeyWords(keysize)]), keysize), keysize))
  {
    hide Expand, Mac, ApplyCtr, IncrementIv, FirstCounter;
    outLen := 0;
    if !ValidMacLen(macLen) {
      return false, outLen;
    }
    if nonceLen < 7 || nonceLen > 13 {
      return false, outLen;
    }
    if assocLen > 32768 {
      return false, outLen;
    }
    if !mallocOk {
      return false, outLen;
    }
    var buf := new byte[bufLen];
    var key := SetupKey(keyStr, keysize);
    ghost var p, a, n, w := payload[..payloadLen], assoc[..assocLen], nonce[..nonceLen], BlockCipher.Schedule(key, keysize);
    var mac := new byte[16];
    FormatAndMac(buf, payload, payloadLen, assoc, assocLen, nonce, nonceLen, macLen, mac, key, keysize);
    assert mac[..macLen] == mac[..][..macLen];
    var counter := new byte[16];
    CcmPrepareFirstCtrBlk(counter, nonce, nonceLen);
    EncryptPayloadAndMac(payload, payloadLen, mac, macLen, output, counter, key, keysize, n);
    outLen := payloadLen + macLen;
    return true, outLen;
  }

  /** A write into a local array: the array's size, where the write starts, and how long it is. */
  datatype Write = Write(size: nat, start: nat, count: nat)

  /** The writes of aes_decrypt_ccm into its local blocks mac and counter. */
  function DecryptWrites(nonceLen: nat, macLen: nat): seq<Write> {
    [Write(16, 0, macLen), Write(16, 0, 16), Write(16, 1, nonceLen)]
  }

  ghost predicate LocalsRespected(nonceLen: nat, macLen: nat) {
    forall w :: w in DecryptWrites(nonceLen, macLen) ==> w.start + w.count <= w.size
  }

  /** Decryption, which unlike encryption checks neither length, stays inside its local blocks just
      when the nonce has at most 15 bytes and the MAC at most 16. */
  lemma LocalsRespectedIff(nonceLen: nat, macLen: nat)
    ensures LocalsRespected(nonceLen, macLen) <==> nonceLen <= 15 && macLen <= 16
  {
    var writes := DecryptWrites(nonceLen, macLen);
    assert writes[0] in writes && writes[2] in writes;
  }

  /** `checkMac` says whether the caller passed a place for the verdict, which is `macAuth`. */
  method AesDecryptCcm(ciphertext: array<byte>, ciphertextLen: nat, assoc: array<byte>, assocLen: nat,
                       nonce: array<byte>, nonceLen: nat, plaintext: array<byte>, macLen: nat,
                       checkMac: bool, keyStr: array<byte>, keysize: int, mallocOk: bool, bufLen: nat)
    returns (ok: bool, plaintextLen: nat, macAuth: bool)
    requires assocLen + ciphertextLen + 48 <= bufLen
    requires ciphertextLen > macLen ==> FormattedLength(assocLen, ciphertextLen - macLen) <= bufLen
    requires Cipher.SupportedKeySize(keysize) && 4 * KeyWords(keysize) <= keyStr.Length
    requires ciphertextLen <= ciphertext.Length && assocLen <= assoc.Length && nonceLen <= nonce.Length
    requires ciphertextLen > macLen && mallocOk ==> LocalsRespected(nonceLen, macLen)
    requires ciphertextLen <= plaintext.Length + macLen
    requires plaintext != ciphertext && plaintext != assoc && plaintext != nonce
    modifies plaintext
    ensures ok <==> ciphertextLen > macLen && mallocOk
    ensures ok ==> nonceLen <= 15 && macLen <= 16
    ensures !ok ==> plaintext[..] == old(plaintext[..])
    ensures ok ==> plaintextLen == ciphertextLen - macLen
    ensures ok ==> plaintext[plaintextLen..] == old(plaintext[plaintextLen..])
    ensures ok ==>
              var c, n, w := old(ciphertext[..ciphertextLen]), old(nonce[..nonceLen]),
                             Expand(old(keyStr[..4 * KeyWords(keysize)]), keysize);
              if !checkMac then plaintext[..plaintextLen] == Recovered(c, n, macLen, w, keysize)
              else macAuth == Authentic(c, old(assoc[..assocLen]), n, macLen, w, keysize) &&
                   plaintext[..plaintextLen] ==
                   if macAuth then Recovered(c, n, macLen, w, keysize) else Zeros(plaintextLen)
  {
    hide Expand, Mac, ApplyCtr, IncrementIv, FirstCounter, Tag;
    plaintextLen, macAuth := 0, false;
    if ciphertextLen <= macLen {
      return false, plaintextLen, macAuth;
    }
    if !mallocOk {
      return false, plaintextLen, macAuth;
    }
    LocalsRespectedIff(nonceLen, macLen);
    plaintextLen := ciphertextLen - macLen;
    var buf := new byte[bufLen];
    var key := SetupKey(keyStr, keysize);
    ghost var c, a, n, w := ciphertext[..ciphertextLen], assoc[..assocLen], nonce[..nonceLen], BlockCipher.Schedule(key, keysize);
    var mac, macBuf := new byte[16], new byte[16];
    CopyBytes(ciphertext, 0, plaintext, 0, plaintextLen);
    CopyBytes(ciphertext, plaintextLen, mac, 0, macLen);
    assert plaintext[..plaintextLen] == c[..plaintextLen] && mac[..macLen] == c[plaintextLen..];
    var counter := new byte[16];
    CcmPrepareFirstCtrBlk(counter, nonce, nonceLen);
    CryptPayload(plaintext, plaintextLen, counter, macLen, key, keysize, n);
    assert plaintext[..plaintextLen] == Recovered(c, n, macLen, w, keysize);
    if checkMac {
      macAuth := CheckMac(buf, plaintext, plaintextLen, assoc, assocLen, nonce, nonceLen, macLen, mac, counter,
                          key, keysize);
    }
    return true, plaintextLen, macAuth;
  }

  /** Encryption followed by decryption gives back the payload and its length and accepts the
      MAC, for every message but the empty one, which decryption refuses. */
  method EncryptThenDecrypt(payload: array<byte>, payloadLen: nat, assoc: array<byte>, assocLen: nat,
                            nonce: array<byte>, nonceLen: nat, macLen: nat, keyStr: array<byte>, keysize: int)
    returns (ok: bool, plaintext: array<byte>, plaintextLen: nat, macAuth: bool)
    requires Cipher.SupportedKeySize(keysize) && 4 * KeyWords(keysize) <= keyStr.Length
    requires payloadLen <= payload.Length && assocLen <= assoc.Length && nonceLen <= nonce.Length
    requires ValidMacLen(macLen) && ValidNonceLen(nonceLen) && assocLen <= 32768
    ensures fresh(plaintext) && (ok <==> payloadLen >= 1)
    ensures ok ==> plaintextLen == payloadLen <= plaintext.Length && macAuth && plaintext[..plaintextLen] == payload[..payloadLen]
  {
    hide Expand, Mac, ApplyCtr, IncrementIv, FirstCounter, Tag, Seal, Recovered, Authentic;
    var sealed := new byte[payloadLen + macLen];
    plaintext := new byte[payloadLen];
    var bufLen := payloadLen + macLen + assocLen + 49;
    AllocationSuffices(assocLen, payloadLen);
    ghost var w := Expand(keyStr[..4 * KeyWords(keysize)], keysize);
    OpenUndoesSeal(payload[..payloadLen], assoc[..assocLen], nonce[..nonceLen], macLen, w, keysize);
    LocalsRespectedIff(nonceLen, macLen);
    var _, sealedLen := AesEncryptCcm(payload, payloadLen, assoc, assocLen, nonce, nonceLen, sealed, macLen,
                                      keyStr, keysize, true, bufLen);
    ok, plaintextLen, macAuth := AesDecryptCcm(sealed, sealedLen, assoc, assocLen, nonce, nonceLen, plaintext, macLen,
                                               true, keyStr, keysize, true, bufLen);
  }
}

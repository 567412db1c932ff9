/**
 The machine types of the AES library (BYTE and WORD) and byte-string operations that
 every mode of operation shares.
 */
module Bytes {

  type byte = bv8
  type word = bv32

  const BLOCK_SIZE: nat := 16

  type Block = s: seq<byte> | |s| == 16 witness seq(16, _ => 0)

  /** Exclusive-or of bytes, which is addition in the field of section 4.1 of FIPS 197. */
  function Add(a: byte, b: byte): byte {
    a ^ b
  }

  /** The bytewise exclusive-or of two strings of one length. */
  function Xor(a: seq<byte>, b: seq<byte>): (r: seq<byte>)
    requires |a| == |b|
  {
    seq(|a|, i requires 0 <= i < |a| => Add(a[i], b[i]))
  }

  function XorBlock(a: Block, b: Block): Block {
    Xor(a, b)
  }

  lemma XorBlockCancels(a: Block, b: Block)
    ensures XorBlock(XorBlock(a, b), b) == a
  {
    XorCancels(a, b);
  }

  lemma AddCancels(x: byte, y: byte)
    ensures Add(Add(x, y), y) == x
  {
  }

  lemma XorCancels(a: seq<byte>, b: seq<byte>)
    requires |a| == |b|
    ensures Xor(Xor(a, b), b) == a
  {
    hide Add;
    forall i | 0 <= i < |a|
      ensures Xor(Xor(a, b), b)[i] == a[i]
    {
      AddCancels(a[i], b[i]);
    }
  }

  /** The j-th 16-byte block of a string. */
  function BlockAt(s: seq<byte>, j: nat): (b: Block)
    requires 16 * (j + 1) <= |s|
  {
    s[16 * j..16 * j + 16]
  }

  /** Strings of whole blocks are equal when their blocks are. */
  lemma EqualByBlocks(s: seq<byte>, t: seq<byte>)
    requires |s| == |t| && |s| % 16 == 0
    requires forall j: nat :: 16 * (j + 1) <= |s| ==> BlockAt(s, j) == BlockAt(t, j)
    ensures s == t
  {
    forall i | 0 <= i < |s|
      ensures s[i] == t[i]
    {
      var j := i / 16;
      assert BlockAt(s, j)[i % 16] == s[i];
      assert BlockAt(t, j)[i % 16] == t[i];
    }
  }
}

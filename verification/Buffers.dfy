/**
 Byte buffers: the library's xor_buf, and the C library calls memcpy and memset that the
 modes use, each stated by the whole new content of the buffer it writes.
 */
module Buffers {
  import opened Bytes

  method CopyBytes(source: array<byte>, from: nat, target: array<byte>, at: nat, count: nat)
    requires source != target
    requires from + count <= source.Length && at + count <= target.Length
    modifies target
    ensures forall k :: at <= k < at + count ==> target[k] == source[from + k - at]
    ensures forall k :: 0 <= k < target.Length && !(at <= k < at + count) ==> target[k] == old(target[k])
  {
    forall k | at <= k < at + count {
      target[k] := source[from + k - at];
    }
  }

  method ZeroBytes(target: array<byte>, at: nat, count: nat)
    requires at + count <= target.Length
    modifies target
    ensures forall k :: at <= k < at + count ==> target[k] == 0
    ensures forall k :: 0 <= k < target.Length && !(at <= k < at + count) ==> target[k] == old(target[k])
  {
    forall k | at <= k < at + count {
      target[k] := 0;
    }
  }

  /** xor_buf: combines `count` bytes of the mask into the buffer from position `at`. */
  method XorBuf(mask: array<byte>, buffer: array<byte>, at: nat, count: nat)
    requires mask != buffer
    requires count <= mask.Length && at + count <= buffer.Length
    modifies buffer
    ensures forall k :: at <= k < at + count ==>
              buffer[k] == Add(old(buffer[k]), mask[k - at]) == old(buffer[k]) ^ mask[k - at]
    ensures forall k :: 0 <= k < buffer.Length && !(at <= k < at + count) ==> buffer[k] == old(buffer[k])
  {
    for i := 0 to count
      invariant forall k :: at <= k < at + i ==> buffer[k] == Add(old(buffer[k]), mask[k - at])
      invariant forall k :: 0 <= k < buffer.Length && !(at <= k < at + i) ==> buffer[k] == old(buffer[k])
    {
      buffer[at + i] := Add(buffer[at + i], mask[i]);
    }
  }
}

/**
 The counter of CTR mode: increment_iv and its meaning on the big-endian number held in the
 last bytes of a block (appendix B.1 of NIST SP 800-38A).
 */
module Counter {
  import opened Bytes
  import opened Remainders

  function Pow256(n: nat): (p: nat)
    ensures p > 0
  {
    if n == 0 then 1 else 256 * Pow256(n - 1)
  }

  /** v modulo 256^n */
  function Wrap(v: nat, n: nat): nat {
    v % Pow256(n)
  }

  function Value(b: byte): nat {
    b as nat
  }

  /** A byte one up, wrapping at 0xff. */
  function Up(b: byte): byte {
    b + 1
  }

  /** The byte of a given value. */
  function ByteOf(v: nat): byte
    requires v < 256
  {
    if v == 0 then 0 else Up(ByteOf(v - 1))
  }

  lemma UpAddsOne(b: byte)
    ensures if Up(b) == 0 then Value(b) == 255 else Value(Up(b)) == Value(b) + 1
    ensures Value(0) == 0
  {
  }

  /** The number whose base-256 digits are the bytes, most significant first. */
  function BigEndian(s: seq<byte>): nat {
    if s == [] then 0 else 256 * BigEndian(s[..|s| - 1]) + Value(s[|s| - 1])
  }

  /** The lowest n base-256 digits of v. */
  function Digits(v: nat, n: nat): (s: seq<byte>)
    ensures |s| == n
  {
    if n == 0 then [] else Digits(v / 256, n - 1) + [ByteOf(v % 256)]
  }

  lemma {:induction false} ValueOfByte(v: nat)
    requires v < 256
    ensures Value(ByteOf(v)) == v
  {
    hide Value, Up;
    UpAddsOne(if v == 0 then 0 else ByteOf(v - 1));
    if v > 0 {
      ValueOfByte(v - 1);
      ZeroValue(Up(ByteOf(v - 1)));
    }
  }

  lemma ZeroValue(b: byte)
    ensures Value(b) < 256
    ensures b == 0 <==> Value(b) == 0
  {
  }

  lemma ValueInjective(b: byte, c: byte)
    requires Value(b) == Value(c)
    ensures b == c
  {
  }

  lemma ByteOfValue(b: byte)
    ensures Value(b) < 256 && ByteOf(Value(b)) == b
  {
    hide Value, ByteOf;
    ZeroValue(b);
    ValueOfByte(Value(b));
    ValueInjective(ByteOf(Value(b)), b);
  }

  lemma {:induction false} BigEndianBound(s: seq<byte>)
    ensures BigEndian(s) < Pow256(|s|)
  {
    hide Value;
    if s != [] {
      BigEndianBound(s[..|s| - 1]);
      ByteOfValue(s[|s| - 1]);
    }
  }

  lemma {:induction false} DigitsOfBigEndian(s: seq<byte>)
    ensures Digits(BigEndian(s), |s|) == s
  {
    hide Value, ByteOf;
    if s != [] {
      DigitsOfBigEndian(s[..|s| - 1]);
      ByteOfValue(s[|s| - 1]);
      assert BigEndian(s) / 256 == BigEndian(s[..|s| - 1]);
    }
  }

  lemma {:induction false} BigEndianOfDigits(v: nat, n: nat)
    ensures BigEndian(Digits(v, n)) == Wrap(v, n)
  {
    hide Value, ByteOf;
    if n > 0 {
      var s := Digits(v, n);
      assert s[..n - 1] == Digits(v / 256, n - 1);
      BigEndianOfDigits(v / 256, n - 1);
      ValueOfByte(v % 256);
      ModOfProduct(v, Pow256(n - 1));
    }
  }

  // ---------- Remainders ----------

  lemma ModOfProduct(v: nat, m: nat)
    requires m > 0
    ensures v % (256 * m) == 256 * (v / 256 % m) + v % 256
  {
    var q, r := v / 256 / m, v / 256 % m;
    assert v / 256 == q * m + r;
    assert v == 256 * (q * m + r) + v % 256;
    assert 256 * (q * m + r) == q * (256 * m) + 256 * r;
    RemainderUnique(v, 256 * m, q, 256 * r + v % 256);
  }

  lemma ModAdd(a: nat, b: nat, m: nat)
    requires m > 0
    ensures (a % m + b) % m == (a + b) % m
  {
    var q := a / m;
    assert a == q * m + a % m;
    var s := (a % m + b) / m;
    assert a % m + b == s * m + (a % m + b) % m;
    assert q * m + s * m == (q + s) * m;
    RemainderUnique(a + b, m, q + s, (a % m + b) % m);
  }

  // ---------- increment_iv ----------

  /** The string one up: a final byte that wraps to zero carries into the bytes before it. */
  function Increment(s: seq<byte>): (r: seq<byte>)
    ensures |r| == |s|
  {
    if s == [] then []
    else
      var front, last := s[..|s| - 1], Up(s[|s| - 1]);
      (if last == 0 then Increment(front) else front) + [last]
  }

  lemma BigEndianOfAppend(s: seq<byte>, b: byte)
    ensures BigEndian(s + [b]) == 256 * BigEndian(s) + Value(b)
  {
    hide Value;
    assert (s + [b])[..|s|] == s;
  }

  lemma CarryOut(f: nat, m: nat)
    requires m > 0
    ensures (256 * f + 255 + 1) % (256 * m) == 256 * ((f + 1) % m)
  {
    ModOfProduct(256 * (f + 1), m);
  }

  lemma NoCarry(f: nat, v: nat, m: nat)
    requires f < m && v < 255
    ensures (256 * f + v + 1) % (256 * m) == 256 * f + v + 1
  {
    RemainderUnique(256 * f + v + 1, 256 * m, 0, 256 * f + v + 1);
  }

  lemma {:induction false} IncrementAddsOne(s: seq<byte>)
    ensures BigEndian(Increment(s)) == Wrap(BigEndian(s) + 1, |s|)
  {
    hide Value, Up, BigEndian;
    if s == [] {
      assert Increment(s) == s;
      BigEndianBound(s);
    } else {
      var front, last := s[..|s| - 1], s[|s| - 1];
      var m := Pow256(|front|);
      assert s == front + [last];
      BigEndianOfAppend(front, last);
      UpAddsOne(last);
      ByteOfValue(last);
      BigEndianBound(front);
      if Up(last) == 0 {
        IncrementAddsOne(front);
        BigEndianOfAppend(Increment(front), Up(last));
        CarryOut(BigEndian(front), m);
      } else {
        ByteOfValue(Up(last));
        BigEndianOfAppend(front, Up(last));
        NoCarry(BigEndian(front), Value(last), m);
      }
    }
  }

  /** The block with its last c bytes counted up by one; other counter sizes change nothing. */
  function IncrementIv(iv: Block, c: int): Block
    requires c <= 16
  {
    if c <= 0 then iv else iv[..16 - c] + Increment(iv[16 - c..])
  }

  lemma IncrementStep(s: seq<byte>, b: byte)
    ensures Increment(s + [b]) == (if Up(b) == 0 then Increment(s) else s) + [Up(b)]
    ensures Increment([]) == []
  {
    hide Up;
    assert (s + [b])[..|s|] == s;
  }

  /** The bytes after idx have wrapped; the rest, from `low` on, still has to be counted up. */
  ghost predicate Pending(before: Block, low: nat, idx: nat, now: Block)
    requires low <= idx < 16
  {
    now[..idx + 1] == before[..idx + 1] &&
    IncrementIv(before, 16 - low) == before[..low] + Increment(before[low..idx + 1]) + now[idx + 1..]
  }

  lemma PendingStart(before: Block, low: nat)
    requires low < 16
    ensures Pending(before, low, 15, before)
  {
    hide Increment;
    assert before[low..16] == before[low..];
  }

  lemma PendingStep(before: Block, low: nat, idx: nat, now: Block)
    requires low <= idx < 16 && Pending(before, low, idx, now)
    ensures var next := now[idx := Up(now[idx])];
            if next[idx] != 0 || idx == low then next == IncrementIv(before, 16 - low)
            else Pending(before, low, idx - 1, next)
  {
    hide Up, Increment, IncrementIv;
    var next := now[idx := Up(now[idx])];
    assert now[idx] == now[..idx + 1][idx] == before[idx];
    assert before[low..idx + 1] == before[low..idx] + [before[idx]];
    IncrementStep(before[low..idx], before[idx]);
    assert next[idx..] == [next[idx]] + now[idx + 1..];
    assert next[..idx] == now[..idx + 1][..idx] == before[..idx];
    if next[idx] != 0 {
      assert before[..low] + before[low..idx] + [next[idx]] + now[idx + 1..] == next;
    } else if idx == low {
      assert before[low..idx] == [];
      assert before[..low] + Increment([]) + [next[idx]] + now[idx + 1..] == next;
    } else {
      assert before[..low] + (Increment(before[low..idx]) + [next[idx]]) + now[idx + 1..] ==
             before[..low] + Increment(before[low..idx]) + next[idx..];
    }
  }

  method IncrementIvInPlace(iv: array<byte>, counterSize: int)
    requires iv.Length == 16 && counterSize <= 16
    modifies iv
    ensures iv[..] == IncrementIv(old(iv[..]), counterSize)
  {
    hide Up, Pending;
    if counterSize <= 0 {
      return;
    }
    var low := 16 - counterSize;
    var idx := 15;
    PendingStart(iv[..], low);
    while idx >= low
      invariant low <= idx <= 15
      invariant Pending(old(iv[..]), low, idx, iv[..])
    {
      PendingStep(old(iv[..]), low, idx, iv[..]);
      iv[idx] := Up(iv[idx]);
      if iv[idx] != 0 || idx == low {
        break;
      }
      idx := idx - 1;
    }
  }

  // ---------- Counter blocks ----------

  /** The block reached from iv after n increments of its last c bytes. */
  function CounterBlock(iv: Block, c: nat, n: nat): Block
    requires c <= 16
  {
    iv[..16 - c] + Digits(Wrap(BigEndian(iv[16 - c..]) + n, c), c)
  }

  lemma WrapAdd(a: nat, b: nat, n: nat)
    ensures Wrap(Wrap(a, n) + b, n) == Wrap(a + b, n)
    ensures Wrap(Wrap(a, n), n) == Wrap(a, n)
  {
    ModAdd(a, b, Pow256(n));
    ModAdd(a, 0, Pow256(n));
  }

  lemma WrapSmall(a: nat, n: nat)
    requires a < Pow256(n)
    ensures Wrap(a, n) == a
  {
    RemainderUnique(a, Pow256(n), 0, a);
  }

  lemma CounterTail(iv: Block, c: nat, n: nat)
    requires c <= 16
    ensures BigEndian(CounterBlock(iv, c, n)[16 - c..]) == Wrap(BigEndian(iv[16 - c..]) + n, c)
    ensures CounterBlock(iv, c, n)[..16 - c] == iv[..16 - c]
  {
    hide BigEndian, Digits, Wrap;
    var v := Wrap(BigEndian(iv[16 - c..]) + n, c);
    assert CounterBlock(iv, c, n)[16 - c..] == Digits(v, c);
    BigEndianOfDigits(v, c);
    WrapAdd(BigEndian(iv[16 - c..]) + n, 0, c);
  }

  lemma CounterBlockZero(iv: Block, c: nat)
    requires c <= 16
    ensures CounterBlock(iv, c, 0) == iv
  {
    hide BigEndian, Digits, Wrap;
    BigEndianBound(iv[16 - c..]);
    WrapSmall(BigEndian(iv[16 - c..]), c);
    DigitsOfBigEndian(iv[16 - c..]);
  }

  /** increment_iv steps from one counter block to the next. */
  lemma CounterBlockNext(iv: Block, c: nat, n: nat)
    requires c <= 16
    ensures IncrementIv(CounterBlock(iv, c, n), c) == CounterBlock(iv, c, n + 1)
  {
    hide BigEndian, Digits, Wrap, Increment;
    var start := BigEndian(iv[16 - c..]);
    var tail := CounterBlock(iv, c, n)[16 - c..];
    CounterTail(iv, c, n);
    IncrementAddsOne(tail);
    WrapAdd(start + n, 1, c);
    DigitsOfBigEndian(Increment(tail));
    if c == 0 {
      assert Increment(tail) == [];
    }
  }

  lemma CounterBlockAdd(iv: Block, c: nat, m: nat, n: nat)
    requires c <= 16
    ensures CounterBlock(CounterBlock(iv, c, m), c, n) == CounterBlock(iv, c, m + n)
  {
    hide BigEndian, Digits, Wrap;
    CounterTail(iv, c, m);
    WrapAdd(BigEndian(iv[16 - c..]) + m, n, c);
  }

  /** Counter blocks repeat after 256^c increments and not before. */
  lemma CounterBlocksRepeat(iv: Block, c: nat, m: nat, n: nat)
    requires c <= 16 && m <= n
    ensures CounterBlock(iv, c, m) == CounterBlock(iv, c, n) <==> Wrap(n - m, c) == 0
  {
    hide BigEndian, Digits, Wrap;
    var start := BigEndian(iv[16 - c..]);
    CounterTail(iv, c, m);
    CounterTail(iv, c, n);
    WrapsAlike(start + m, start + n, c);
  }

  lemma WrapsAlike(a: nat, b: nat, c: nat)
    requires a <= b
    ensures Wrap(a, c) == Wrap(b, c) <==> Wrap(b - a, c) == 0
  {
    SameRemainder(a, b, Pow256(c));
  }

  lemma SameRemainder(a: nat, b: nat, m: nat)
    requires m > 0 && a <= b
    ensures a % m == b % m <==> (b - a) % m == 0
  {
    if (b - a) % m == 0 {
      ModAdd(b - a, a, m);
    }
    if a % m == b % m {
      DifferenceOfEqualRemainders(a, b, m);
    }
  }

  lemma DifferenceOfEqualRemainders(a: nat, b: nat, m: nat)
    requires m > 0 && a <= b && a % m == b % m
    ensures (b - a) % m == 0
  {
    var q, t := a / m, b / m;
    assert a == q * m + a % m && b == t * m + b % m;
    Distributes(t, q, m);
    Distributes(q, t, m);
    if t < q {
      ProductBound(q - t, m);
    } else {
      RemainderUnique(b - a, m, t - q, 0);
    }
  }

  /** When the last byte is zero, counting up touches that byte only, whatever the size. */
  lemma IncrementOfZeroEnd(iv: Block, c: nat)
    requires iv[15] == 0 && 1 <= c <= 16
    ensures IncrementIv(iv, c) == iv[15 := 1]
  {
    hide Increment;
    var front := iv[16 - c..15];
    assert iv[16 - c..] == front + [iv[15]];
    IncrementStep(front, iv[15]);
    assert iv[..16 - c] + front == iv[..15];
  }

  // ---------- Numbers of joined strings ----------

  lemma {:induction false} BigEndianOfJoin(s: seq<byte>, t: seq<byte>)
    ensures BigEndian(s + t) == BigEndian(s) * Pow256(|t|) + BigEndian(t)
  {
    hide Value;
    if t == [] {
      assert s + t == s;
    } else {
      var front, last := t[..|t| - 1], t[|t| - 1];
      assert s + t == (s + front) + [last] && t == front + [last];
      BigEndianOfJoin(s, front);
      BigEndianOfAppend(s + front, last);
      ShiftedSum(BigEndian(s), Pow256(|front|), BigEndian(front), Value(last));
    }
  }

  lemma ShiftedSum(a: nat, m: nat, b: nat, v: nat)
    ensures 256 * (a * m + b) + v == a * (256 * m) + (256 * b + v)
  {
    assert 256 * (a * m) == a * (256 * m);
  }

  lemma {:induction false} DigitsOfSum(a: nat, v: nat, n: nat, q: nat)
    requires v < Pow256(q)
    ensures Digits(a * Pow256(q) + v, n + q) == Digits(a, n) + Digits(v, q)
  {
    hide ByteOf;
    if q > 0 {
      var m := Pow256(q - 1);
      ShiftedSum(a, m, v / 256, v % 256);
      DigitsOfSum(a, v / 256, n, q - 1);
    }
  }
}

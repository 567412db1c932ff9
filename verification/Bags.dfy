/**
 The packets in a family of queues, and the subsequence order between queues.
 */
module Bags {

  /** How often packet p is in the queue. */
  function Times(q: seq<nat>, p: nat): nat {
    multiset(q)[p]
  }

  /** How often packet p is in the queues together. */
  function Tally(qs: seq<seq<nat>>, p: nat): nat {
    if qs == [] then 0 else Tally(qs[..|qs| - 1], p) + Times(qs[|qs| - 1], p)
  }

  lemma TimesOfSum(a: seq<nat>, b: seq<nat>, p: nat)
    ensures Times(a + b, p) == Times(a, p) + Times(b, p)
    ensures Times([], p) == 0
  {
  }

  lemma {:induction false} TallyOfUpdate(qs: seq<seq<nat>>, i: nat, q: seq<nat>, p: nat)
    requires i < |qs|
    ensures Tally(qs[i := q], p) + Times(qs[i], p) == Tally(qs, p) + Times(q, p)
  {
    hide Times;
    var front, last, now := qs[..|qs| - 1], |qs| - 1, qs[i := q];
    if i == last {
      assert now[..last] == front;
    } else {
      assert now[..last] == front[i := q] && now[last] == qs[last] && front[i] == qs[i];
      TallyOfUpdate(front, i, q, p);
    }
  }

  // ---------- Subsequences ----------

  /** The first queue can be had from the second by leaving packets out. */
  ghost predicate IsSub(a: seq<nat>, b: seq<nat>)
    decreases |b|
  {
    a == [] ||
    (b != [] &&
     ((a[|a| - 1] == b[|b| - 1] && IsSub(a[..|a| - 1], b[..|b| - 1])) || IsSub(a, b[..|b| - 1])))
  }

  lemma SubAppend(a: seq<nat>, b: seq<nat>, x: nat)
    requires IsSub(a, b)
    ensures IsSub(a + [x], b + [x])
  {
    assert (a + [x])[..|a|] == a && (b + [x])[..|b|] == b;
  }

  lemma {:induction false} SubFront(a: seq<nat>, b: seq<nat>)
    requires IsSub(a, b) && a != []
    ensures IsSub(a[..|a| - 1], b)
    decreases |b|
  {
    var front := b[..|b| - 1];
    if IsSub(a, front) {
      SubFront(a, front);
      assert IsSub(a[..|a| - 1], b);
    } else {
      SubLonger(a[..|a| - 1], front, b);
    }
  }

  lemma SubLonger(a: seq<nat>, front: seq<nat>, b: seq<nat>)
    requires b != [] && front == b[..|b| - 1] && IsSub(a, front)
    ensures IsSub(a, b)
  {
  }

  /** Packets at the end may be given up. */
  lemma {:induction false} SubPrefix(a: seq<nat>, tail: seq<nat>, b: seq<nat>)
    requires IsSub(a + tail, b)
    ensures IsSub(a, b)
    decreases |tail|
  {
    if tail == [] {
      assert a + tail == a;
    } else {
      assert (a + tail)[..|a + tail| - 1] == a + tail[..|tail| - 1];
      SubFront(a + tail, b);
      SubPrefix(a, tail[..|tail| - 1], b);
    }
  }

  lemma {:induction false} SubSelf(a: seq<nat>)
    ensures IsSub(a, a)
  {
    if a != [] {
      SubSelf(a[..|a| - 1]);
    }
  }

  lemma {:induction false} SubMore(a: seq<nat>, b: seq<nat>, c: seq<nat>)
    requires IsSub(a, b)
    ensures IsSub(a + c, b + c)
    decreases |c|
  {
    if c == [] {
      assert a + c == a && b + c == b;
    } else {
      var front, x := c[..|c| - 1], c[|c| - 1];
      SubMore(a, b, front);
      SubAppend(a + front, b + front, x);
      assert a + c == (a + front) + [x] && b + c == (b + front) + [x];
    }
  }

  /** Packets at the head may be given up. */
  lemma {:induction false} SubSuffix(head: seq<nat>, a: seq<nat>, b: seq<nat>)
    requires IsSub(head + a, b)
    ensures IsSub(a, b)
    decreases |b|
  {
    if a != [] {
      var front := b[..|b| - 1];
      assert (head + a)[..|head + a| - 1] == head + a[..|a| - 1];
      if IsSub(head + a, front) {
        SubSuffix(head, a, front);
      } else {
        SubSuffix(head, a[..|a| - 1], front);
      }
    }
  }

  lemma {:induction false} SubPrepend(c: seq<nat>, a: seq<nat>, b: seq<nat>)
    requires IsSub(a, b)
    ensures IsSub(c + a, c + b)
    decreases |b|
  {
    if a == [] {
      assert c + a == c;
      SubExtend(c, b);
    } else {
      var front := b[..|b| - 1];
      assert (c + a)[..|c + a| - 1] == c + a[..|a| - 1];
      assert (c + b)[..|c + b| - 1] == c + front;
      if IsSub(a, front) {
        SubPrepend(c, a, front);
      } else {
        SubPrepend(c, a[..|a| - 1], front);
      }
    }
  }

  lemma {:induction false} SubExtend(c: seq<nat>, b: seq<nat>)
    ensures IsSub(c, c + b)
    decreases |b|
  {
    if b == [] {
      assert c + b == c;
      SubSelf(c);
    } else {
      var front := b[..|b| - 1];
      SubExtend(c, front);
      assert (c + b)[..|c + b| - 1] == c + front;
    }
  }

  lemma {:induction false} SubTransitive(a: seq<nat>, b: seq<nat>, c: seq<nat>)
    requires IsSub(a, b) && IsSub(b, c)
    ensures IsSub(a, c)
    decreases |c|
  {
    if a != [] {
      var front := c[..|c| - 1];
      if IsSub(b, front) {
        SubTransitive(a, b, front);
      } else if IsSub(a, b[..|b| - 1]) {
        SubTransitive(a, b[..|b| - 1], front);
      } else {
        SubTransitive(a[..|a| - 1], b[..|b| - 1], front);
      }
    }
  }

  /** What the order means: there are positions in the second queue, one after the other, that
      hold the packets of the first. */
  lemma {:induction false} SubPositions(a: seq<nat>, b: seq<nat>) returns (at: seq<nat>)
    requires IsSub(a, b)
    ensures |at| == |a|
    ensures forall k :: 0 <= k < |a| ==> at[k] < |b| && b[at[k]] == a[k]
    ensures forall j, k :: 0 <= j < k < |a| ==> at[j] < at[k]
    decreases |b|
  {
    if a == [] {
      at := [];
    } else if a[|a| - 1] == b[|b| - 1] && IsSub(a[..|a| - 1], b[..|b| - 1]) {
      var rest := SubPositions(a[..|a| - 1], b[..|b| - 1]);
      at := rest + [|b| - 1];
    } else {
      at := SubPositions(a, b[..|b| - 1]);
    }
  }
}

/**
 A lane: a buffer that is emptied, all or in part, into a queue that others use as well.  What
 an owner has put into its buffer stays in order on the way, whoever else uses the queue.
 */
module Lanes {
  import opened Bags

  /** From the queue, the buffer and the history of a lane at one time to those at a later one:
      the queue has grown at its end only, and what it gained and what waits in the buffer are,
      in order, what waited before and what was put in since, with packets left out. */
  ghost predicate Lane(q0: seq<nat>, b0: seq<nat>, r0: seq<nat>, q: seq<nat>, b: seq<nat>, r: seq<nat>) {
    |q0| <= |q| && q[..|q0|] == q0 && |r0| <= |r| && r[..|r0|] == r0 &&
    IsSub(q[|q0|..] + b, b0 + r[|r0|..])
  }

  lemma LaneSelf(q: seq<nat>, b: seq<nat>, r: seq<nat>)
    ensures Lane(q, b, r, q, b, r)
  {
    assert q[|q|..] + b == b && b + r[|r|..] == b;
    SubSelf(b);
  }

  lemma LanePut(q0: seq<nat>, b0: seq<nat>, r0: seq<nat>, q: seq<nat>, b: seq<nat>, r: seq<nat>, p: nat)
    requires Lane(q0, b0, r0, q, b, r)
    ensures Lane(q0, b0, r0, q, b + [p], r + [p])
  {
    SubAppend(q[|q0|..] + b, b0 + r[|r0|..], p);
    assert q[|q0|..] + (b + [p]) == (q[|q0|..] + b) + [p];
    assert b0 + (r + [p])[|r0|..] == (b0 + r[|r0|..]) + [p];
  }

  /** The first k packets of the buffer go into the queue, the others nowhere. */
  lemma LaneEmptied(q0: seq<nat>, b0: seq<nat>, r0: seq<nat>, q: seq<nat>, b: seq<nat>, r: seq<nat>, k: nat)
    requires Lane(q0, b0, r0, q, b, r) && k <= |b|
    ensures Lane(q0, b0, r0, q + b[..k], [], r)
  {
    var a := q[|q0|..];
    assert a + b == (a + b[..k]) + b[k..];
    SubPrefix(a + b[..k], b[k..], b0 + r[|r0|..]);
    assert (q + b[..k])[|q0|..] + [] == a + b[..k];
  }

  lemma LaneDropped(q0: seq<nat>, b0: seq<nat>, r0: seq<nat>, q: seq<nat>, b: seq<nat>, r: seq<nat>)
    requires Lane(q0, b0, r0, q, b, r)
    ensures Lane(q0, b0, r0, q, [], r) && Lane(q0, b0, r0, q + b, [], r)
  {
    LaneEmptied(q0, b0, r0, q, b, r, 0);
    LaneEmptied(q0, b0, r0, q, b, r, |b|);
    assert q + b[..0] == q && q + b[..|b|] == q + b;
  }

  // ---------- Several owners ----------

  /** The packets of a queue that owner o put there, given who put each. */
  function Mine(q: seq<nat>, tags: seq<nat>, o: nat): seq<nat>
    requires |q| == |tags|
  {
    if q == [] then []
    else Mine(q[..|q| - 1], tags[..|q| - 1], o) + if tags[|q| - 1] == o then [q[|q| - 1]] else []
  }

  /** What owner o has in the queue and in its buffer is, in order, what it put in, with
      packets left out. */
  ghost predicate InOrder(q: seq<nat>, tags: seq<nat>, o: nat, b: seq<nat>, r: seq<nat>) {
    |q| == |tags| && IsSub(Mine(q, tags, o) + b, r)
  }

  function Repeat(o: nat, n: nat): (r: seq<nat>)
    ensures |r| == n
  {
    seq(n, _ => o)
  }

  /** An owner's packets at the end of the queue belong to it and to no other. */
  lemma {:induction false} MineOfMore(q: seq<nat>, tags: seq<nat>, a: seq<nat>, o: nat, u: nat)
    requires |q| == |tags|
    ensures Mine(q + a, tags + Repeat(o, |a|), u) == if u == o then Mine(q, tags, u) + a else Mine(q, tags, u)
    decreases |a|
  {
    if a == [] {
      assert q + a == q && tags + Repeat(o, 0) == tags;
    } else {
      var front := a[..|a| - 1];
      MineOfMore(q, tags, front, o, u);
      var q1, tags1 := q + a, tags + Repeat(o, |a|);
      assert q1[..|q1| - 1] == q + front && tags1[..|q1| - 1] == tags + Repeat(o, |front|);
      assert q1[|q1| - 1] == a[|a| - 1] && tags1[|q1| - 1] == o;
    }
  }

  /** Packets taken from the head of the queue leave the rest in order. */
  lemma {:induction false} MineOfRest(q: seq<nat>, tags: seq<nat>, k: nat, o: nat)
    requires |q| == |tags| && k <= |q|
    ensures Mine(q, tags, o) == Mine(q[..k], tags[..k], o) + Mine(q[k..], tags[k..], o)
    decreases |q|
  {
    if k == |q| {
      assert q[..k] == q && tags[..k] == tags && q[k..] == [];
    } else {
      var last := |q| - 1;
      MineOfRest(q[..last], tags[..last], k, o);
      assert q[..last][..k] == q[..k] && tags[..last][..k] == tags[..k];
      assert q[k..][..last - k] == q[..last][k..] && tags[k..][..last - k] == tags[..last][k..];
      assert q[k..][last - k] == q[last] && tags[k..][last - k] == tags[last];
    }
  }

  lemma TakenInOrder(q: seq<nat>, tags: seq<nat>, o: nat, b: seq<nat>, r: seq<nat>, k: nat)
    requires InOrder(q, tags, o, b, r) && k <= |q|
    ensures InOrder(q[k..], tags[k..], o, b, r)
  {
    MineOfRest(q, tags, k, o);
    var head, rest := Mine(q[..k], tags[..k], o), Mine(q[k..], tags[k..], o);
    assert Mine(q, tags, o) + b == head + (rest + b);
    SubSuffix(head, rest + b, r);
  }

  /** A call of owner o keeps the order of its own packets. */
  lemma CallInOrder(q0: seq<nat>, tags0: seq<nat>, o: nat, b0: seq<nat>, r0: seq<nat>, q: seq<nat>, b: seq<nat>, r: seq<nat>)
    requires InOrder(q0, tags0, o, b0, r0) && Lane(q0, b0, r0, q, b, r)
    ensures InOrder(q, tags0 + Repeat(o, |q| - |q0|), o, b, r)
  {
    hide IsSub;
    var a, more := q[|q0|..], r[|r0|..];
    assert q == q0 + a && r == r0 + more;
    MineOfMore(q0, tags0, a, o, o);
    Joined(Mine(q0, tags0, o), a, b, b0, r0, more);
  }

  lemma Joined(mine: seq<nat>, a: seq<nat>, b: seq<nat>, b0: seq<nat>, r0: seq<nat>, more: seq<nat>)
    requires IsSub(mine + b0, r0) && IsSub(a + b, b0 + more)
    ensures IsSub(mine + a + b, r0 + more)
  {
    hide IsSub;
    var gained, waiting := a + b, b0 + more;
    SubPrepend(mine, gained, waiting);
    SubMore(mine + b0, r0, more);
    Associates(mine, b0, more);
    SubTransitive(mine + gained, mine + waiting, r0 + more);
    Associates(mine, a, b);
  }

  lemma Associates(a: seq<nat>, b: seq<nat>, c: seq<nat>)
    ensures a + (b + c) == a + b + c
  {
  }

  /** and leaves those of every other owner as they are. */
  lemma OthersInOrder(q0: seq<nat>, tags0: seq<nat>, o: nat, u: nat, bu: seq<nat>, ru: seq<nat>, q: seq<nat>)
    requires InOrder(q0, tags0, u, bu, ru) && u != o && |q0| <= |q| && q[..|q0|] == q0
    ensures InOrder(q, tags0 + Repeat(o, |q| - |q0|), u, bu, ru)
  {
    hide IsSub, Mine;
    var a := q[|q0|..];
    assert q == q0 + a;
    MineOfMore(q0, tags0, a, o, u);
  }
}

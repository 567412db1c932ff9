/**
 The split of the instances among the TX threads.
 */
module TxThreads {
  import opened Registry

  /** The number of instances per thread, rounded up. */
  function PerThread(threads: nat): (n: nat)
    requires threads > 0
    ensures n > 0 && (n - 1) * threads < MAX_NFS <= n * threads
  {
    Rounded(threads);
    (MAX_NFS + threads - 1) / threads
  }

  lemma Rounded(threads: nat)
    requires threads > 0
    ensures var n := (MAX_NFS + threads - 1) / threads;
            n > 0 && (n - 1) * threads < MAX_NFS <= n * threads
  {
    var n := (MAX_NFS + threads - 1) / threads;
    assert n * threads + (MAX_NFS + threads - 1) % threads == MAX_NFS + threads - 1;
  }

  /** RTE_MIN with MAX_NFS */
  function Capped(x: nat): nat {
    if x < MAX_NFS then x else MAX_NFS
  }

  /** Thread i serves the instances from first to last, without the last. */
  ghost predicate Serves(threads: nat, i: nat, id: nat)
    requires threads > 0
  {
    Capped(i * PerThread(threads) + 1) <= id < Capped((i + 1) * PerThread(threads) + 1)
  }

  /** The thread that serves an instance. */
  function ThreadOf(threads: nat, id: nat): (i: nat)
    requires threads > 0 && 0 < id < MAX_NFS
  {
    (id - 1) / PerThread(threads)
  }

  lemma Quotient(a: nat, n: nat, i: nat)
    requires n > 0
    ensures i * n <= a < (i + 1) * n <==> i == a / n
  {
    assert a == (a / n) * n + a % n;
    if i < a / n {
      assert (i + 1) * n <= (a / n) * n;
    } else if i > a / n {
      assert i * n >= (a / n + 1) * n;
    }
  }

  lemma CappedRange(a: nat, b: nat, id: nat)
    requires id < MAX_NFS
    ensures Capped(a + 1) <= id < Capped(b + 1) <==> id > 0 && a <= id - 1 < b
  {
  }

  /** Every instance a manager can number is served by exactly one thread, and id 0, which is
      reserved, by none. */
  lemma ServedOnce(threads: nat, i: nat, id: nat)
    requires threads > 0 && i < threads && id < MAX_NFS
    ensures Serves(threads, i, id) <==> id > 0 && i == ThreadOf(threads, id)
  {
    hide Capped, PerThread;
    var n := PerThread(threads);
    CappedRange(i * n, (i + 1) * n, id);
    if id > 0 {
      Quotient(id - 1, n, i);
    }
  }

  lemma ThreadExists(threads: nat, id: nat)
    requires threads > 0 && 0 < id < MAX_NFS
    ensures ThreadOf(threads, id) < threads
  {
    hide PerThread;
    var n := PerThread(threads);
    var i := (id - 1) / n;
    Quotient(id - 1, n, i);
    Monotone(threads, i, n);
  }

  lemma Monotone(a: nat, b: nat, n: nat)
    ensures a <= b ==> a * n <= b * n
  {
  }

  predicate InRange(firsts: seq<nat>, lasts: seq<nat>, i: nat, id: nat)
    requires i < |firsts| == |lasts|
  {
    firsts[i] <= id < lasts[i]
  }

  /** The loop of main that gives each thread its range. */
  method AssignInstances(threads: nat) returns (firsts: seq<nat>, lasts: seq<nat>)
    requires threads > 0
    ensures |firsts| == |lasts| == threads
    ensures forall i: nat, id: nat :: i < threads && id < MAX_NFS ==>
              (InRange(firsts, lasts, i, id) <==> id > 0 && i == ThreadOf(threads, id))
    ensures forall id: nat :: 0 < id < MAX_NFS ==> ThreadOf(threads, id) < threads
  {
    hide PerThread, Capped, ThreadOf;
    var nfsPerTx := PerThread(threads);
    firsts, lasts := [], [];
    for i := 0 to threads
      invariant |firsts| == |lasts| == i
      invariant forall j: nat, id: nat :: j < i && id < MAX_NFS ==> (InRange(firsts, lasts, j, id) <==> Serves(threads, j, id))
    {
      firsts := firsts + [Capped(i * nfsPerTx + 1)];
      lasts := lasts + [Capped((i + 1) * nfsPerTx + 1)];
    }
    forall i: nat, id: nat | i < threads && id < MAX_NFS
      ensures InRange(firsts, lasts, i, id) <==> id > 0 && i == ThreadOf(threads, id)
    {
      ServedOnce(threads, i, id);
    }
    forall id: nat | 0 < id < MAX_NFS
      ensures ThreadOf(threads, id) < threads
    {
      ThreadExists(threads, id);
    }
  }
}

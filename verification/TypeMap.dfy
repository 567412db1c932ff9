/**
 The rows of the type map nts: each holds the ids of the ready instances of a type, in the
 order in which they became ready, followed by zeros.
 */
module TypeMap {
  import opened Registry

  /** The row lists exactly these ids. */
  ghost predicate Holds(row: seq<nat>, ids: seq<nat>) {
    |ids| <= |row| &&
    (forall k :: 0 <= k < |ids| ==> row[k] == ids[k] && ids[k] != 0) &&
    (forall k :: |ids| <= k < |row| ==> row[k] == 0)
  }

  ghost predicate Distinct(ids: seq<nat>) {
    forall j, k :: 0 <= j < k < |ids| ==> ids[j] != ids[k]
  }

  /** The ids other than the k-th, in their order. */
  function Without(ids: seq<nat>, k: nat): (r: seq<nat>)
    requires k < |ids|
    ensures |r| == |ids| - 1
  {
    ids[..k] + ids[k + 1..]
  }

  lemma RunEndOfRow(row: seq<nat>, ids: seq<nat>, from: nat)
    requires Holds(row, ids) && from <= |ids|
    ensures RunEnd(row, from) == |ids|
  {
    var e := RunEnd(row, from);
    assert e <= |ids| by {
      if |ids| < |row| {
        assert row[|ids|] == 0;
      }
    }
    assert e >= |ids| by {
      if e < |row| {
        assert row[e] == 0;
      }
    }
  }

  lemma FirstPosition(row: seq<nat>, ids: seq<nat>, k: nat)
    requires Holds(row, ids) && Distinct(ids) && k < |ids|
    ensures IndexOf(row, ids[k]) == k
  {
    assert row[k] == ids[k];
    assert forall j :: 0 <= j < k ==> row[j] != ids[k];
  }

  lemma ClosedUp(row: seq<nat>, ids: seq<nat>, k: nat)
    requires Holds(row, ids) && k < |ids|
    ensures Holds(row[..k] + row[k + 1..|ids|] + [0] + row[|ids|..], Without(ids, k))
  {
  }

  /** Removal takes out the one id and keeps the others in order. */
  lemma RemoveFromRowIsWithout(row: seq<nat>, ids: seq<nat>, k: nat)
    requires Holds(row, ids) && Distinct(ids) && k < |ids|
    ensures Holds(RemoveFromRow(row, ids[k]), Without(ids, k))
  {
    hide IndexOf, RunEnd, Holds, Distinct, Without;
    FirstPosition(row, ids, k);
    assert |ids| <= |row| by { Fits(row, ids); }
    RunEndOfRow(row, ids, k + 1);
    ClosedUp(row, ids, k);
  }

  lemma Fits(row: seq<nat>, ids: seq<nat>)
    requires Holds(row, ids)
    ensures |ids| <= |row|
  {
  }

  lemma AppendToRow(row: seq<nat>, ids: seq<nat>, id: nat)
    requires Holds(row, ids) && |ids| < |row| && id != 0
    ensures Holds(row[|ids| := id], ids + [id])
  {
  }

  lemma WithoutMembers(ids: seq<nat>, k: nat)
    requires k < |ids| && Distinct(ids)
    ensures Distinct(Without(ids, k))
    ensures forall id :: id in Without(ids, k) <==> id in ids && id != ids[k]
  {
    forall id | id in ids && id != ids[k]
      ensures id in Without(ids, k)
    {
      var j :| 0 <= j < |ids| && ids[j] == id;
      assert Without(ids, k)[if j < k then j else j - 1] == id;
    }
    forall id | id in Without(ids, k)
      ensures id in ids && id != ids[k]
    {
      var j :| 0 <= j < |Without(ids, k)| && Without(ids, k)[j] == id;
      assert ids[if j < k then j else j + 1] == id;
    }
  }

  /** As many ids as members when no id is listed twice. */
  lemma {:induction false} SizeOfDistinct(ids: seq<nat>, members: set<nat>)
    requires Distinct(ids) && forall id :: id in members <==> id in ids
    ensures |members| == |ids|
  {
    if ids == [] {
      assert members == {};
    } else {
      var front, last := ids[..|ids| - 1], ids[|ids| - 1];
      assert ids == front + [last];
      SizeOfDistinct(front, members - {last});
    }
  }

  // ---------- Sums of counters ----------

  function Total(c: seq<nat>): nat {
    if c == [] then 0 else Total(c[..|c| - 1]) + c[|c| - 1]
  }

  lemma {:induction false} TotalOfUpdate(c: seq<nat>, t: nat, v: nat)
    requires t < |c|
    ensures Total(c[t := v]) + c[t] == Total(c) + v
  {
    var front := c[..|c| - 1];
    if t == |c| - 1 {
      assert c[t := v][..t] == front;
    } else {
      assert c[t := v][..|c| - 1] == front[t := v];
      TotalOfUpdate(front, t, v);
    }
  }

  lemma {:induction false} TotalBound(c: seq<nat>, bound: nat)
    requires forall t :: 0 <= t < |c| ==> c[t] <= bound
    ensures Total(c) <= bound * |c|
    ensures forall t :: 0 <= t < |c| ==> c[t] <= Total(c)
  {
    if c != [] {
      TotalBound(c[..|c| - 1], bound);
      assert forall t :: 0 <= t < |c| - 1 ==> c[t] == c[..|c| - 1][t];
    }
  }
}

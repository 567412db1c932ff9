/**
 Service chains: the array a chain is built in, the lookups of the next action, and the walk
 of a packet along a chain.
 */
module ServiceChain {

  const MAX_SC_LEN: nat := 6

  const DROP: nat := 0
  const NEXT: nat := 1
  const TONF: nat := 2
  const OUT: nat := 3

  datatype Entry = Entry(act: nat, dst: nat)

  /** A chain as it lies in memory; entry 0 is not used. */
  datatype Links = Links(entries: seq<Entry>, scLen: nat)

  /** The part of the meta data of a packet that routing uses. */
  datatype Meta = Meta(act: nat, dst: nat, src: nat, scIndex: nat)

  /** The entries in use lie inside the array. */
  predicate Fits(c: Links) {
    |c.entries| == MAX_SC_LEN && c.scLen < MAX_SC_LEN
  }

  /** d2sc_sc_next_act */
  function NextAct(c: Links, index: nat): nat
    requires Fits(c)
  {
    if index >= c.scLen then DROP else c.entries[index + 1].act
  }

  /** d2sc_sc_next_dst */
  function NextDst(c: Links, index: nat): nat
    requires Fits(c)
  {
    if index >= c.scLen then 0 else c.entries[index + 1].dst
  }

  /** The packet takes its action and destination from the chain and moves on by one entry. */
  function Advance(c: Links, meta: Meta): Meta
    requires Fits(c)
  {
    meta.(act := NextAct(c, meta.scIndex), dst := NextDst(c, meta.scIndex), scIndex := (meta.scIndex + 1) % 256)
  }

  /** The meta data after k more lookups. */
  function Walk(c: Links, meta: Meta, k: nat): Meta
    requires Fits(c)
  {
    if k == 0 then meta else Advance(c, Walk(c, meta, k - 1))
  }

  /** The entries a packet at the given index has still to meet. */
  function Left(c: Links, index: nat): (r: seq<Entry>)
    requires Fits(c) && index <= c.scLen
    ensures |r| == c.scLen - index
  {
    c.entries[index + 1..c.scLen + 1]
  }

  /** The entries in the order they were appended. */
  function Listed(c: Links): seq<Entry>
    requires Fits(c)
  {
    Left(c, 0)
  }

  lemma LeftNext(c: Links, index: nat)
    requires Fits(c) && index < c.scLen
    ensures Left(c, index)[0] == c.entries[index + 1] && Left(c, index)[1..] == Left(c, index + 1)
  {
  }

  /** The lookups of a packet that starts at the head give the entries in the order they were
      appended, and then a drop. */
  lemma {:induction false} WalkMeetsEntries(c: Links, meta: Meta, k: nat)
    requires Fits(c) && meta.scIndex == 0 && k <= c.scLen
    ensures var t := Walk(c, meta, k + 1);
            (k < c.scLen ==> Entry(t.act, t.dst) == Listed(c)[k]) &&
            (k == c.scLen ==> t.act == DROP) &&
            t.scIndex == k + 1 && t.src == meta.src
  {
    if k > 0 {
      WalkMeetsEntries(c, meta, k - 1);
    } else {
      assert Walk(c, meta, 0) == meta;
    }
  }

  /** From the head, the k-th lookup gives the k-th entry of the list, and the one after the
      last gives a drop. */
  ghost predicate LeadsAlong(c: Links, list: seq<Entry>)
    requires Fits(c)
  {
    forall meta: Meta, k: nat :: meta.scIndex == 0 && k <= |list| ==> MeetsAt(c, meta, list, k)
  }

  predicate MeetsAt(c: Links, meta: Meta, list: seq<Entry>, k: nat)
    requires Fits(c) && k <= |list|
  {
    var t := Walk(c, meta, k + 1);
    if k < |list| then Entry(t.act, t.dst) == list[k] else t.act == DROP
  }

  lemma FollowsList(c: Links)
    requires Fits(c)
    ensures LeadsAlong(c, Listed(c))
  {
    hide Walk;
    forall meta: Meta, k: nat | meta.scIndex == 0 && k <= c.scLen
      ensures MeetsAt(c, meta, Listed(c), k)
    {
      WalkMeetsEntries(c, meta, k);
    }
  }

  /** The number of instances a packet visits when every instance returns it with NEXT: the
      walk goes on as long as the lookups say TONF. */
  function Hops(c: Links, meta: Meta): nat
    requires Fits(c) && meta.scIndex <= c.scLen
    decreases c.scLen - meta.scIndex
  {
    var t := Advance(c, meta);
    if t.act == TONF then 1 + Hops(c, t) else 0
  }

  /** The list begins with exactly n entries that say TONF. */
  ghost predicate Leading(list: seq<Entry>, n: nat) {
    n <= |list| &&
    (forall j :: 0 <= j < n ==> list[j].act == TONF) &&
    (n < |list| ==> list[n].act != TONF)
  }

  lemma LeadingMore(list: seq<Entry>, n: nat)
    requires list != [] && list[0].act == TONF && Leading(list[1..], n)
    ensures Leading(list, n + 1)
  {
    assert forall j :: 1 <= j < |list| ==> list[j] == list[1..][j - 1];
  }

  /** Such a packet visits as many instances as there are entries left before the first one
      that is not TONF. */
  lemma {:induction false} HopsCounted(c: Links, meta: Meta)
    requires Fits(c) && meta.scIndex <= c.scLen
    ensures Leading(Left(c, meta.scIndex), Hops(c, meta))
    decreases c.scLen - meta.scIndex
  {
    hide Leading, Left;
    var left := Left(c, meta.scIndex);
    if meta.scIndex < c.scLen {
      LeftNext(c, meta.scIndex);
      if left[0].act == TONF {
        HopsCounted(c, Advance(c, meta));
        LeadingMore(left, Hops(c, Advance(c, meta)));
        return;
      }
    }
    LeadingNone(left);
  }

  lemma LeadingNone(list: seq<Entry>)
    requires list != [] ==> list[0].act != TONF
    ensures Leading(list, 0)
  {
  }

  /** The test of d2sc_sc_merge_entry lets the append through. */
  predicate AppendGoesOn(scLen: nat) {
    scLen <= MAX_SC_LEN
  }

  /** An append that goes on writes outside the array of a chain just at two lengths. */
  lemma AppendLeavesArrayIff(scLen: nat)
    ensures AppendGoesOn(scLen) && !(scLen + 1 < MAX_SC_LEN) <==> scLen == 5 || scLen == 6
  {
  }

  /** d2sc_sc */
  class Chain {
    const scEntry: array<Entry>
    var scLen: nat

    /** d2sc_sc_create */
    constructor ()
      ensures fresh(scEntry) && scEntry.Length == MAX_SC_LEN
      ensures scLen == 0 && View() == Links(seq(MAX_SC_LEN, i => Entry(DROP, 0)), 0)
    {
      scEntry := new Entry[MAX_SC_LEN](i => Entry(DROP, 0));
      scLen := 0;
    }

    function View(): Links
      reads this, scEntry
    {
      Links(scEntry[..], scLen)
    }

    /** d2sc_sc_merge_entry.  The test of the length lets two appends through that leave the
        array, so there must be room unless the test fails. */
    method MergeEntry(act: nat, dst: nat) returns (noSpace: bool)
      requires scEntry.Length == MAX_SC_LEN
      requires AppendGoesOn(scLen) ==> scLen + 1 < MAX_SC_LEN
      modifies this, scEntry
      ensures noSpace <==> old(scLen) > MAX_SC_LEN
      ensures noSpace ==> View() == old(View())
      ensures !noSpace ==> Fits(View()) && Fits(old(View())) && Listed(View()) == old(Listed(View())) + [Entry(act, dst)]
    {
      if scLen > MAX_SC_LEN {
        return true;
      }
      scLen := scLen + 1;
      scEntry[scLen] := Entry(act, dst);
      return false;
    }

    /** d2sc_sc_set_entry */
    method SetEntry(index: nat, act: nat, dst: nat) returns (failed: bool)
      requires Fits(View())
      modifies scEntry
      ensures failed <==> index > scLen
      ensures Fits(View()) && scLen == old(scLen)
      ensures failed || index == 0 ==> Listed(View()) == old(Listed(View()))
      ensures !failed && index > 0 ==> Listed(View()) == old(Listed(View()))[index - 1 := Entry(act, dst)]
    {
      if index > scLen {
        return true;
      }
      scEntry[index] := Entry(act, dst);
      return false;
    }
  }

  /** A chain built from a list of entries: packets meet the list in order and are dropped. */
  method Build(list: seq<Entry>) returns (c: Chain)
    requires |list| < MAX_SC_LEN
    ensures fresh(c) && fresh(c.scEntry) && Fits(c.View()) && Listed(c.View()) == list
    ensures LeadsAlong(c.View(), list)
  {
    c := new Chain();
    for i := 0 to |list|
      invariant fresh(c) && fresh(c.scEntry) && Fits(c.View()) && c.scLen == i && Listed(c.View()) == list[..i]
    {
      var noSpace := c.MergeEntry(list[i].act, list[i].dst);
    }
    FollowsList(c.View());
  }
}

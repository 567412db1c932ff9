/**
 The way of one packet from the NIC along its chain, when every instance that gets it returns it
 with NEXT.
 */
module Journey {
  import opened Registry
  import opened ServiceChain
  import opened PacketPath
  import opened Delivery
  import opened Forwarding

  /** The instances a packet is handed to: the first look-up counts whatever its action, because
      a batch from the NIC goes to instances in any case; later ones only when they say TONF. */
  function Visits(c: Links): nat
    requires Fits(c)
  {
    1 + if c.scLen == 0 then 0 else Hops(c, Meta(DROP, 0, 0, 1))
  }

  /** The number of entries that say TONF before the first that does not. */
  function LeadingTonf(list: seq<Entry>): (n: nat)
    ensures Leading(list, n)
  {
    if list == [] || list[0].act != TONF then 0
    else
      assert forall j :: 1 <= j < |list| ==> list[j] == list[1..][j - 1];
      1 + LeadingTonf(list[1..])
  }

  lemma LeadingUnique(list: seq<Entry>, m: nat, n: nat)
    requires Leading(list, m) && Leading(list, n)
    ensures m == n
  {
  }

  /** A packet visits the instances its chain leads to before the first entry that is not TONF,
      just when the first entry is TONF; otherwise it visits one that the chain does not lead to.
      It makes at most as many visits as there are entries, except that it makes one on an empty
      chain. */
  lemma VisitsIff(c: Links)
    requires Fits(c)
    ensures Visits(c) == LeadingTonf(Listed(c)) <==> c.scLen > 0 && Listed(c)[0].act == TONF
    ensures Visits(c) <= c.scLen <==> c.scLen > 0
    ensures (forall k :: 0 <= k < c.scLen ==> Listed(c)[k].act == TONF) && c.scLen > 0 ==> Visits(c) == c.scLen
  {
    hide Hops, LeadingTonf;
    var list := Listed(c);
    if c.scLen > 0 {
      HopsCounted(c, Meta(DROP, 0, 0, 1));
      LeftNext(c, 0);
      assert Left(c, 1) == list[1..];
      var hops := Hops(c, Meta(DROP, 0, 0, 1));
      if list[0].act == TONF {
        LeadingMore(list, hops);
        LeadingUnique(list, hops + 1, LeadingTonf(list));
      }
    }
  }

  /** A packet's way: it arrives in a batch from the NIC, and each instance returns it with NEXT.
      Between the calls others may do anything but move its place in the chain, and each call
      may find another state of the manager. */
  ghost predicate Trip(es: seq<Env>, before: seq<Net>, after: seq<Net>, nfs: seq<nat>, p: Pkt, c: Links) {
    |es| == |before| == |after| == |nfs| && |es| > 0 && (forall j :: 0 <= j < |es| ==> Stop(es[j], before[j], p, c, nfs[j])) &&
    ArrivalsOk(es[0], [p]) && after[0] == RxEach(es[0], before[0], [p]) &&
    forall j :: 1 <= j < |es| ==> Returns(es[j], before[j], after[j - 1], after[j], nfs[j], p)
  }

  ghost predicate Stop(e: Env, n: Net, p: Pkt, c: Links, i: nat) {
    Readable(e) && Ready(e, n) && p < |n.metas| && e.chains[p] == c && i < MAX_NFS &&
    |n.nfs| == |n.bufs| == |n.routed| == MAX_NFS
  }

  ghost predicate Returns(e: Env, before: Net, last: Net, after: Net, i: nat, p: Pkt) {
    Readable(e) && Ready(e, before) && i < MAX_NFS && p < |before.metas| && p < |last.metas| &&
    before.metas[p].act == NEXT && before.metas[p].scIndex == last.metas[p].scIndex &&
    Sound(e, before.metas[p], p) && after == TxOne(e, before, p, i)
  }

  /** What happens to the packet at stop j of its way. */
  ghost function FateAt(e: Env, c: Links, j: nat, p: Pkt): Fate
    requires Readable(e) && p < |e.rss| && Fits(c)
    requires j == 0 ==> Reaches(e, NextDst(c, 0), p)
    requires 0 < j < c.scLen && Listed(c)[j].act == TONF ==> Reaches(e, Listed(c)[j].dst, p)
  {
    if j == 0 then TypeFate(e, NextDst(c, 0), p)
    else if j < c.scLen then EntryFate(e, Listed(c)[j], p)
    else Dropped
  }

  /** The packet is handed to an instance of the type the first entry names, meets the others in
      their order, and is dropped when it has met all. */
  lemma {:induction false} TripMeetsEntries(es: seq<Env>, before: seq<Net>, after: seq<Net>, nfs: seq<nat>, p: Pkt, c: Links, j: nat)
    requires Trip(es, before, after, nfs, p, c) && j < |es| && j < 255
    ensures Stop(es[j], before[j], p, c, nfs[j]) && Fits(c) && p < |after[j].metas| && after[j].metas[p].scIndex == j + 1
    ensures j == 0 ==> Reaches(es[j], NextDst(c, 0), p)
    ensures 0 < j < c.scLen && Listed(c)[j].act == TONF ==> Reaches(es[j], Listed(c)[j].dst, p)
    ensures FateKept(before[j], after[j], p, FateAt(es[j], c, j, p))
  {
    hide Readable, Ready, FateKept, TypeFate, EntryFate, TxOne, RxEach, Sound, Reaches, ArrivalsOk, Trip;
    TripParts(es, before, after, nfs, p, c, j);
    if j == 0 {
      Arrives(es[0], before[0], p, c);
    } else {
      TripMeetsEntries(es, before, after, nfs, p, c, j - 1);
      TracksSelf(before[j]);
      NextFollowsChain(before[j], es[j], before[j], p, nfs[j]);
    }
  }

  lemma TripParts(es: seq<Env>, before: seq<Net>, after: seq<Net>, nfs: seq<nat>, p: Pkt, c: Links, j: nat)
    requires Trip(es, before, after, nfs, p, c) && j < |es|
    ensures |es| == |before| == |after| == |nfs| && Stop(es[j], before[j], p, c, nfs[j]) && Fits(c) && p < |es[j].rss|
    ensures Readable(es[0]) && Ready(es[0], before[0]) && ArrivalsOk(es[0], [p]) && after[0] == RxEach(es[0], before[0], [p])
    ensures j > 0 ==> Returns(es[j], before[j], after[j - 1], after[j], nfs[j], p)
  {
  }

  lemma Arrives(e: Env, n: Net, p: Pkt, c: Links)
    requires Readable(e) && Ready(e, n) && p < |n.metas| && p < |e.rss| && e.chains[p] == c && ArrivalsOk(e, [p])
    requires |n.nfs| == |n.bufs| == |n.routed| == MAX_NFS
    ensures Fits(c) && Reaches(e, NextDst(c, 0), p)
    ensures var r := RxEach(e, n, [p]);
            p < |r.metas| && r.metas[p].scIndex == 1 && FateKept(n, r, p, TypeFate(e, NextDst(c, 0), p))
  {
    hide Reaches, TypeFate, EnqueueBq, FateKept, Advance;
    var y, meta := NextDst(c, 0), Arrived(e, n.metas[p], p);
    assert [p][0] == p && [p][1..] == [];
    var t := SetMeta(n, p, meta);
    TracksSelf(t);
    EnqueueBqDelivers(t, e, t, y, p);
    EnqueueBqMetas(e, t, y, p);
    ArrivalFollowsChain(e, n.metas[p], p);
    MetaFate(n, p, meta, EnqueueBq(e, t, y, p), TypeFate(e, y, p));
    assert RxEach(e, n, [p]) == EnqueueBq(e, t, y, p);
  }

  lemma EnqueueBqMetas(e: Env, n: Net, y: nat, p: Pkt)
    requires Readable(e) && Ready(e, n) && Reaches(e, y, p)
    ensures EnqueueBq(e, n, y, p).metas == n.metas
  {
    hide Readable, Reaches, Target;
  }
}

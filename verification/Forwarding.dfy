/**
 From the manager's state to the packet path: when packets can be routed at all, that they
 reach the right instance, and that a packet returned with NEXT follows its chain.
 */
module Forwarding {
  import opened Registry
  import opened Lifecycle
  import opened ServiceChain
  import opened PacketPath
  import opened Delivery
  import Router
  import Runs

  /** Every packet of every type can be routed. */
  ghost predicate Routable(s: State) {
    Shape(s) && PointersOk(s) && forall y: nat, h: nat :: y < MAX_NTS ==> Routes(s, y, h)
  }

  /** Between passes of the master thread a packet for a type can be routed just when the type has
      no instance, the packet's hash selects an unblocked one, or one is available. */
  lemma SettledRoutes(s: State, y: nat, h: nat)
    requires Inv(s) && s.ring == [] && y < MAX_NTS && PointersOk(s)
    ensures s.num[y] <= MAX_NFS_PER_NT && (s.num[y] > 0 ==> Router.Hashed(s, y, h) < MAX_NFS)
    ensures Routes(s, y, h) <==>
            s.num[y] == 0 || s.nfs[Router.Hashed(s, y, h)].bkFlag != 2 || s.avail[y] > 0
  {
    hide Local, Counters, Linked, Registered, TypeOf, Members;
    Runs.CountersAgree(s, y);
    if s.num[y] > 0 {
      Router.HashedIsMember(s, y, h);
      Router.MembersAreSlots(s, y);
      if s.avail[y] > 0 {
        var i :| i in Open(s, y);
        Router.SettledUsable(s, y, i);
      }
    }
  }

  /** Between passes of the master thread every packet can be routed just when every type that
      has instances has one that is available. */
  lemma SettledRoutable(s: State)
    requires Inv(s) && s.ring == []
    ensures Routable(s) <==> forall y :: 0 <= y < MAX_NTS ==> s.num[y] == 0 || s.avail[y] > 0
  {
    hide Inv, Routes;
    InvParts(s);
    forall y: nat | y < MAX_NTS
      ensures (forall h: nat :: Routes(s, y, h)) <==> s.num[y] == 0 || s.avail[y] > 0
    {
      TypeRoutable(s, y);
    }
    if Routable(s) {
      forall y: nat | y < MAX_NTS
        ensures s.num[y] == 0 || s.avail[y] > 0
      {
        assert forall h: nat :: Routes(s, y, h);
      }
    } else {
      var y: nat, h: nat :| y < MAX_NTS && !Routes(s, y, h);
      assert !(s.num[y] == 0 || s.avail[y] > 0);
    }
  }

  lemma TypeRoutable(s: State, y: nat)
    requires Inv(s) && s.ring == [] && y < MAX_NTS && PointersOk(s)
    ensures (forall h: nat :: Routes(s, y, h)) <==> s.num[y] == 0 || s.avail[y] > 0
  {
    hide Inv, Router.Hashed;
    InvParts(s);
    Runs.CountersAgree(s, y);
    if s.num[y] > 0 {
      Router.SettledTerminates(s, y);
      forall h: nat
        ensures Routes(s, y, h) <==> Router.Terminates(s, y, h)
      {
      }
    }
  }

  /** A packet for a type goes to an unblocked instance of that type, and is dropped only when
      the type has no instance. */
  lemma TargetIsOpen(e: Env, y: nat, p: Pkt)
    requires Readable(e) && Inv(e.s) && Reaches(e, y, p)
    ensures var t := Target(e, y, p);
            (t.Some? ==> t.value in Open(e.s, y)) &&
            (e.s.ring == [] ==> (t == None <==> Members(e.s, y) == {}))
  {
    hide Inv, Router.Terminates, Router.Hashed;
    Router.ChosenIsOpen(e.s, y, e.rss[p]);
    var r := Router.Chosen(e.s, y, e.rss[p]);
    if r != 0 && e.s.ring == [] {
      Router.SettledUsable(e.s, y, r);
    }
  }

  /** A packet from the NIC goes to the type its chain names first. */
  lemma ArrivalFollowsChain(e: Env, meta: Meta, p: Pkt)
    requires Readable(e) && p < |e.rss|
    ensures var c, t := e.chains[p], Arrived(e, meta, p);
            t == Walk(c, meta.(src := 0, scIndex := 0), 1) && t.scIndex == 1 &&
            (c.scLen > 0 ==> t.act == Listed(c)[0].act && t.dst == Listed(c)[0].dst)
  {
    assert Walk(e.chains[p], meta.(src := 0, scIndex := 0), 0) == meta.(src := 0, scIndex := 0);
  }

  function EntryFate(e: Env, entry: Entry, p: Pkt): Fate
    requires Readable(e) && (entry.act == TONF ==> Reaches(e, entry.dst, p))
  {
    if entry.act == TONF then TypeFate(e, entry.dst, p)
    else if entry.act == OUT then PortFate(e, entry.dst)
    else if entry.act == DROP then Dropped
    else Forgotten
  }

  /** A packet returned with NEXT meets the next entry of its chain, or is dropped when it has
      met all of them; its index moves on by one. */
  lemma NextFollowsChain(n0: Net, e: Env, n: Net, p: Pkt, i: nat)
    requires Readable(e) && Ready(e, n) && p < |n.metas| && i < MAX_NFS && Tracks(n0, n)
    requires n.metas[p].act == NEXT && Sound(e, n.metas[p], p) && n.metas[p].scIndex < 255
    ensures var c, k, r := e.chains[p], n.metas[p].scIndex, TxOne(e, n, p, i);
            p < |r.metas| && r.metas[p].scIndex == k + 1 &&
            if k >= c.scLen then FateKept(n, r, p, Dropped)
            else
              var entry := Listed(c)[k];
              (entry.act == TONF ==> Reaches(e, entry.dst, p)) && FateKept(n, r, p, EntryFate(e, entry, p))
  {
    hide Readable, Sound, TypeFate, Tracks, FateKept, TxFate, EntryFate, TxOne, Advance;
    TxOneDelivers(n0, e, n, p, i);
    NextMeta(e, n, p, i);
    NextFate(e, n.metas[p], p);
  }

  lemma NextFate(e: Env, meta: Meta, p: Pkt)
    requires Readable(e) && p < |e.rss| && meta.act == NEXT && Sound(e, meta, p)
    ensures var c, k := e.chains[p], meta.scIndex;
            Fits(c) && Advance(c, meta).scIndex == (k + 1) % 256 &&
            if k >= c.scLen then TxFate(e, meta, p) == Dropped
            else
              var entry := Listed(c)[k];
              (entry.act == TONF ==> Reaches(e, entry.dst, p)) && TxFate(e, meta, p) == EntryFate(e, entry, p)
  {
    hide Reaches, TypeFate;
  }

  lemma NextMeta(e: Env, n: Net, p: Pkt, i: nat)
    requires Readable(e) && Ready(e, n) && p < |n.metas| && i < MAX_NFS
    requires n.metas[p].act == NEXT && Sound(e, n.metas[p], p)
    ensures TxOne(e, n, p, i).metas == n.metas[p := Advance(e.chains[p], n.metas[p])]
  {
    hide Reaches, Target, Advance;
  }
}

/**
 The way out: packets for a port and packets for an instance's tx ring stay in order, and the
 statistics account for each of them.
 */
module Outbound {
  import opened Registry
  import opened Lanes
  import opened PacketPath
  import SC = ServiceChain

  /** The lane to a port; sent, dropped and buffered together have grown by the packets posted
      since, and tx counts what the NIC took. */
  ghost predicate PortTracksAt(q0: Port, b0: seq<Pkt>, r0: seq<Pkt>, q: Port, b: seq<Pkt>, r: seq<Pkt>) {
    Lane(q0.sent, b0, r0, q.sent, b, r) &&
    q.tx + q.txDrop + |b| + |r0| == q0.tx + q0.txDrop + |b0| + |r| &&
    q.tx + |q0.sent| == q0.tx + |q.sent|
  }

  /** The lane to the tx ring of an instance. */
  ghost predicate RingTracksAt(q0: Queue, b0: seq<Pkt>, r0: seq<Pkt>, q: Queue, b: seq<Pkt>, r: seq<Pkt>) {
    Lane(q0.txQ, b0, r0, q.txQ, b, r) &&
    q.stats.tx + q.stats.txDrop + |b| + |r0| == q0.stats.tx + q0.stats.txDrop + |b0| + |r|
  }

  ghost predicate SameRing(q0: Queue, q: Queue) {
    q.txQ == q0.txQ && q.stats.tx == q0.stats.tx && q.stats.txDrop == q0.stats.txDrop
  }

  /** All ports, and the tx ring of instance i; the other tx rings are left alone. */
  ghost predicate Leaves(n0: Net, n: Net, i: nat) {
    i < |n0.nfs| == |n.nfs| && |n0.ports| == |n0.portBufs| == |n0.posted| &&
    |n.ports| == |n.portBufs| == |n.posted| == |n0.ports| &&
    (forall k :: 0 <= k < |n0.ports| ==>
       PortTracksAt(n0.ports[k], n0.portBufs[k], n0.posted[k], n.ports[k], n.portBufs[k], n.posted[k])) &&
    RingTracksAt(n0.nfs[i], n0.txBuf, n0.returned, n.nfs[i], n.txBuf, n.returned) &&
    forall j :: 0 <= j < |n.nfs| && j != i ==> SameRing(n0.nfs[j], n.nfs[j])
  }

  lemma LeavesSelf(n: Net, i: nat)
    requires i < |n.nfs| && |n.ports| == |n.portBufs| == |n.posted|
    ensures Leaves(n, n, i)
  {
    hide Lane;
    LaneSelf(n.nfs[i].txQ, n.txBuf, n.returned);
    forall k | 0 <= k < |n.ports|
      ensures PortTracksAt(n.ports[k], n.portBufs[k], n.posted[k], n.ports[k], n.portBufs[k], n.posted[k])
    {
      LaneSelf(n.ports[k].sent, n.portBufs[k], n.posted[k]);
    }
  }

  /** The step leaves the way out alone. */
  ghost predicate SameOut(n: Net, r: Net) {
    |r.nfs| == |n.nfs| && r.ports == n.ports && r.portBufs == n.portBufs && r.posted == n.posted &&
    r.txBuf == n.txBuf && r.returned == n.returned &&
    forall i :: 0 <= i < |n.nfs| ==> SameRing(n.nfs[i], r.nfs[i])
  }

  lemma SameOutLeaves(n0: Net, n: Net, r: Net, i: nat)
    requires Leaves(n0, n, i) && SameOut(n, r)
    ensures Leaves(n0, r, i)
  {
    hide Lane;
    assert SameRing(n.nfs[i], r.nfs[i]);
    forall j | 0 <= j < |r.nfs| && j != i
      ensures SameRing(n0.nfs[j], r.nfs[j])
    {
      assert SameRing(n.nfs[j], r.nfs[j]);
    }
  }

  // ---------- Single steps ----------

  lemma EnqueueBqLeaves(n0: Net, e: Env, n: Net, y: nat, p: Pkt, i: nat)
    requires Readable(e) && Ready(e, n) && Reaches(e, y, p) && Leaves(n0, n, i)
    ensures Leaves(n0, EnqueueBq(e, n, y, p), i)
  {
    hide Reaches, Target, Leaves;
    SameOutLeaves(n0, n, EnqueueBq(e, n, y, p), i);
  }

  lemma FlushPortLeaves(n0: Net, e: Env, n: Net, port: nat, i: nat)
    requires Sized(e, n) && port < |n.ports| && Leaves(n0, n, i)
    ensures Leaves(n0, FlushPort(e, n, port), i)
  {
    hide Lane, RingTracksAt, SameRing, Taken;
    assert PortTracksAt(n0.ports[port], n0.portBufs[port], n0.posted[port], n.ports[port], n.portBufs[port], n.posted[port]);
    LaneEmptied(n0.ports[port].sent, n0.portBufs[port], n0.posted[port], n.ports[port].sent, n.portBufs[port], n.posted[port],
                Taken(n.nic, |n.portBufs[port]|));
  }

  lemma PutInPortLeaves(n0: Net, n: Net, port: nat, p: Pkt, i: nat)
    requires port < |n.portBufs| && Leaves(n0, n, i)
    ensures Leaves(n0, PutInPort(n, port, p), i)
  {
    hide Lane, RingTracksAt, SameRing;
    LanePut(n0.ports[port].sent, n0.portBufs[port], n0.posted[port], n.ports[port].sent, n.portBufs[port], n.posted[port], p);
  }

  lemma EnqueuePortLeaves(n0: Net, e: Env, n: Net, port: nat, p: Pkt, i: nat)
    requires Ready(e, n) && (port < |e.portIds| ==> e.mgrNf) && Leaves(n0, n, i)
    ensures Leaves(n0, EnqueuePort(e, n, port, p), i)
  {
    hide Leaves, FlushPort;
    if port >= |e.portIds| {
      SameOutLeaves(n0, n, n.(lost := n.lost + [p]), i);
    } else {
      PutInPortLeaves(n0, n, port, p, i);
      FlushPortLeaves(n0, e, PutInPort(n, port, p), port, i);
    }
  }

  lemma EnqueueTxRingLeaves(n0: Net, n: Net, i: nat)
    requires i < |n.nfs| && Leaves(n0, n, i)
    ensures Leaves(n0, EnqueueTxRing(n, i), i)
  {
    hide Lane, PortTracksAt;
    LaneDropped(n0.nfs[i].txQ, n0.txBuf, n0.returned, n.nfs[i].txQ, n.txBuf, n.returned);
  }

  lemma PutInTxLeaves(n0: Net, n: Net, p: Pkt, i: nat)
    requires Leaves(n0, n, i)
    ensures Leaves(n0, PutInTx(n, p), i)
  {
    hide Lane, PortTracksAt, SameRing;
    LanePut(n0.nfs[i].txQ, n0.txBuf, n0.returned, n.nfs[i].txQ, n.txBuf, n.returned, p);
  }

  lemma OutputLeaves(n0: Net, e: Env, n: Net, p: Pkt, i: nat, port: nat)
    requires Ready(e, n) && i < MAX_NFS && Leaves(n0, n, i)
    ensures Leaves(n0, Output(e, n, p, i, port), i)
  {
    hide Leaves, EnqueuePort, EnqueueTxRing;
    if e.mgrNf {
      var stats := n.nfs[i].stats;
      var u := CountAct(n, i, stats.(actOut := stats.actOut + 1));
      SameOutLeaves(n0, n, u, i);
      EnqueuePortLeaves(n0, e, u, port, p, i);
    } else {
      PutInTxLeaves(n0, n, p, i);
      EnqueueTxRingLeaves(n0, PutInTx(n, p), i);
    }
  }

  lemma ForwardLeaves(n0: Net, e: Env, n: Net, p: Pkt, i: nat, meta: SC.Meta)
    requires Readable(e) && Ready(e, n) && p < |n.metas| && i < MAX_NFS && Passable(e, meta, p) && Leaves(n0, n, i)
    ensures Leaves(n0, Forward(e, n, p, i, meta), i)
  {
    hide Reaches, Leaves, EnqueueBq, EnqueuePort;
    var stats := n.nfs[i].stats;
    if meta.act == SC.TONF {
      var u := CountAct(n, i, stats.(actTonf := stats.actTonf + 1));
      SameOutLeaves(n0, n, u, i);
      EnqueueBqLeaves(n0, e, u, meta.dst, p, i);
    } else if meta.act == SC.OUT {
      var u := CountAct(n, i, stats.(actOut := stats.actOut + 1));
      SameOutLeaves(n0, n, u, i);
      EnqueuePortLeaves(n0, e, u, meta.dst, p, i);
    } else {
      SameOutLeaves(n0, n, Forward(e, n, p, i, meta), i);
    }
  }

  lemma TxOneLeaves(n0: Net, e: Env, n: Net, p: Pkt, i: nat)
    requires Readable(e) && Ready(e, n) && p < |n.metas| && i < MAX_NFS && Leaves(n0, n, i)
    requires n.metas[p].act <= SC.OUT && Sound(e, n.metas[p], p)
    ensures Leaves(n0, TxOne(e, n, p, i), i)
  {
    hide Reaches, Leaves, EnqueueBq, Output, Forward, SC.Advance;
    var meta, stats := n.metas[p], n.nfs[i].stats;
    if meta.act == SC.NEXT {
      var u := CountAct(n, i, stats.(actNext := stats.actNext + 1));
      var next := SC.Advance(e.chains[p], meta);
      SameOutLeaves(n0, n, SetMeta(u, p, next), i);
      ForwardLeaves(n0, e, SetMeta(u, p, next), p, i, next);
    } else if meta.act == SC.TONF {
      var u := CountAct(n, i, stats.(actTonf := stats.actTonf + 1));
      SameOutLeaves(n0, n, u, i);
      EnqueueBqLeaves(n0, e, u, meta.dst, p, i);
    } else if meta.act == SC.OUT {
      OutputLeaves(n0, e, n, p, i, meta.dst);
    } else {
      SameOutLeaves(n0, n, TxOne(e, n, p, i), i);
    }
  }

  // ---------- Batches and flushes ----------

  /** A batch from instance i keeps the lanes to the ports and to its tx ring. */
  lemma {:induction false} TxBatchLeaves(n0: Net, e: Env, n: Net, pkts: seq<Pkt>, i: nat)
    requires Readable(e) && Ready(e, n) && BatchOk(e, n.metas, pkts) && i < MAX_NFS && Leaves(n0, n, i)
    ensures Leaves(n0, TxBatch(e, n, pkts, i), i)
    decreases |pkts|
  {
    hide Readable, TxOne, Reaches, Leaves;
    if pkts != [] {
      var p := pkts[0];
      var t := Stamped(n, p, i);
      SameOutLeaves(n0, n, t, i);
      if t.metas[p].act > SC.OUT {
        SameOutLeaves(n0, t, TxBatch(e, n, pkts, i), i);
      } else {
        var m := TxOne(e, t, p, i);
        TxOneMetas(e, t, p, i);
        RestOk(e, n.metas, m.metas, pkts);
        TxOneLeaves(n0, e, t, p, i);
        TxBatchLeaves(n0, e, m, pkts[1..], i);
      }
    }
  }

  /** A batch from the NIC puts nothing on the way out. */
  lemma {:induction false} RxEachLeaves(n0: Net, e: Env, n: Net, pkts: seq<Pkt>, i: nat)
    requires Readable(e) && Ready(e, n) && ArrivalsOk(e, pkts) && Leaves(n0, n, i)
    ensures Leaves(n0, RxEach(e, n, pkts), i)
    decreases |pkts|
  {
    hide Reaches, EnqueueBq, Arrived, SC.NextDst, Leaves;
    if pkts != [] {
      var p := pkts[0];
      var t := SetMeta(n, p, Arrived(e, n.metas[p], p));
      var y := SC.NextDst(e.chains[p], 0);
      SameOutLeaves(n0, n, t, i);
      EnqueueBqLeaves(n0, e, t, y, p, i);
      RxEachLeaves(n0, e, EnqueueBq(e, t, y, p), pkts[1..], i);
    }
  }

  lemma FlushNfSameOut(e: Env, n: Net, i: nat)
    requires Readable(e) && Sized(e, n) && i < MAX_NFS
    ensures SameOut(n, FlushNf(e, n, i))
  {
  }

  lemma {:induction false} FlushAllBqsLeaves(n0: Net, e: Env, n: Net, m: nat, i: nat)
    requires Readable(e) && Ready(e, n) && m <= MAX_NFS && Leaves(n0, n, i)
    ensures Leaves(n0, FlushAllBqs(e, n, m), i)
  {
    hide Readable, Leaves, FlushNf, SameOut;
    if m > 0 {
      FlushAllBqsLeaves(n0, e, n, m - 1, i);
      var t := FlushAllBqs(e, n, m - 1);
      FlushNfSameOut(e, t, m - 1);
      SameOutLeaves(n0, t, FlushNf(e, t, m - 1), i);
    }
  }

  lemma {:induction false} FlushAllPortsLeaves(n0: Net, e: Env, n: Net, m: nat, i: nat)
    requires Ready(e, n) && m <= |e.portIds| && Leaves(n0, n, i)
    ensures Leaves(n0, FlushAllPorts(e, n, m), i)
  {
    hide Leaves, FlushPort;
    if m > 0 {
      FlushAllPortsLeaves(n0, e, n, m - 1, i);
      FlushPortLeaves(n0, e, FlushAllPorts(e, n, m - 1), e.portIds[m - 1], i);
    }
  }
}

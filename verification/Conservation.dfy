/**
 No packet is lost or doubled: over every call of the packet path, each packet is in exactly
 as many places after the call as it was before and was handed in.
 */
module Conservation {
  import opened Registry
  import opened Bags
  import opened PacketPath

  function RxQs(nfs: seq<Queue>): seq<seq<nat>> {
    seq(|nfs|, i requires 0 <= i < |nfs| => nfs[i].rxQ)
  }

  function TxQs(nfs: seq<Queue>): seq<seq<nat>> {
    seq(|nfs|, i requires 0 <= i < |nfs| => nfs[i].txQ)
  }

  function Sents(ports: seq<Port>): seq<seq<nat>> {
    seq(|ports|, k requires 0 <= k < |ports| => ports[k].sent)
  }

  /** How often packet x is in an instance's rings. */
  function InRings(nfs: seq<Queue>, x: Pkt): nat {
    Tally(RxQs(nfs), x) + Tally(TxQs(nfs), x)
  }

  /** How often packet x is anywhere: free, forgotten, in a buffer, in a ring, or sent. */
  function Copies(n: Net, x: Pkt): nat {
    Times(n.freed, x) + Times(n.lost, x) + Times(n.txBuf, x) + Tally(n.bufs, x) + Tally(n.portBufs, x) +
    InRings(n.nfs, x) + Tally(Sents(n.ports), x)
  }

  lemma RingsOfUpdate(nfs: seq<Queue>, i: nat, q: Queue, x: Pkt)
    requires i < |nfs|
    ensures InRings(nfs[i := q], x) + Times(nfs[i].rxQ, x) + Times(nfs[i].txQ, x) ==
            InRings(nfs, x) + Times(q.rxQ, x) + Times(q.txQ, x)
  {
    hide Tally, Times;
    assert RxQs(nfs[i := q]) == RxQs(nfs)[i := q.rxQ];
    assert TxQs(nfs[i := q]) == TxQs(nfs)[i := q.txQ];
    TallyOfUpdate(RxQs(nfs), i, q.rxQ, x);
    TallyOfUpdate(TxQs(nfs), i, q.txQ, x);
  }

  lemma SentsOfUpdate(ports: seq<Port>, k: nat, q: Port, x: Pkt)
    requires k < |ports|
    ensures Tally(Sents(ports[k := q]), x) + Times(ports[k].sent, x) == Tally(Sents(ports), x) + Times(q.sent, x)
  {
    hide Tally, Times;
    assert Sents(ports[k := q]) == Sents(ports)[k := q.sent];
    TallyOfUpdate(Sents(ports), k, q.sent, x);
  }

  // ---------- Single steps ----------

  lemma ReleaseCopies(n: Net, ps: seq<Pkt>, x: Pkt)
    ensures Copies(Release(n, ps), x) == Copies(n, x) + Times(ps, x)
    ensures Copies(n.(lost := n.lost + ps), x) == Copies(n, x) + Times(ps, x)
  {
    hide Tally, Times, InRings;
    TimesOfSum(n.freed, ps, x);
    TimesOfSum(n.lost, ps, x);
  }

  lemma MetaCopies(n: Net, p: Pkt, meta: ServiceChain.Meta, x: Pkt)
    requires p < |n.metas|
    ensures Copies(SetMeta(n, p, meta), x) == Copies(n, x)
  {
    hide Tally, Times, InRings;
  }

  lemma CountActCopies(n: Net, i: nat, stats: NfStats, x: Pkt)
    requires i < |n.nfs|
    ensures Copies(CountAct(n, i, stats), x) == Copies(n, x)
  {
    hide Tally, Times, InRings;
    RingsOfUpdate(n.nfs, i, n.nfs[i].(stats := stats), x);
  }

  lemma EmptyBufferCopies(n: Net, i: nat, x: Pkt)
    requires i < |n.nfs| == |n.bufs|
    ensures Copies(EmptyBuffer(n, i), x) == Copies(n, x)
  {
    hide Tally, Times, InRings;
    TallyOfUpdate(n.bufs, i, [], x);
    TimesOfSum(n.nfs[i].rxQ, n.bufs[i], x);
    TimesOfSum(n.freed, n.bufs[i], x);
    RingsOfUpdate(n.nfs, i, EmptyBuffer(n, i).nfs[i], x);
  }

  lemma FlushNfCopies(e: Env, n: Net, i: nat, x: Pkt)
    requires Readable(e) && Sized(e, n) && i < MAX_NFS
    ensures Copies(FlushNf(e, n, i), x) == Copies(n, x)
  {
    hide Copies;
    EmptyBufferCopies(n, i, x);
  }

  lemma PutInBufferCopies(n: Net, i: nat, p: Pkt, x: Pkt)
    requires i < |n.bufs| == |n.routed|
    ensures Copies(PutInBuffer(n, i, p), x) == Copies(n, x) + Times([p], x)
  {
    hide Tally, Times, InRings;
    TallyOfUpdate(n.bufs, i, n.bufs[i] + [p], x);
    TimesOfSum(n.bufs[i], [p], x);
  }

  lemma EnqueueBqCopies(e: Env, n: Net, y: nat, p: Pkt, x: Pkt)
    requires Readable(e) && Ready(e, n) && Reaches(e, y, p)
    ensures Copies(EnqueueBq(e, n, y, p), x) == Copies(n, x) + Times([p], x)
  {
    hide Copies, Times, Readable, Target;
    match Target(e, y, p)
    case None => ReleaseCopies(n, [p], x);
    case Some(i) =>
      PutInBufferCopies(n, i, p, x);
      var t := PutInBuffer(n, i, p);
      if |t.bufs[i]| == PKT_RD_SIZE {
        FlushNfCopies(e, t, i, x);
      }
  }

  lemma {:induction false} FlushAllBqsCopies(e: Env, n: Net, k: nat, x: Pkt)
    requires Readable(e) && Ready(e, n) && k <= MAX_NFS
    ensures Copies(FlushAllBqs(e, n, k), x) == Copies(n, x)
  {
    hide Copies, FlushNf, Readable;
    if k > 0 {
      FlushAllBqsCopies(e, n, k - 1, x);
      FlushNfCopies(e, FlushAllBqs(e, n, k - 1), k - 1, x);
    }
  }

  lemma FlushPortCopies(e: Env, n: Net, port: nat, x: Pkt)
    requires Sized(e, n) && port < |n.ports|
    ensures Copies(FlushPort(e, n, port), x) == Copies(n, x)
  {
    hide Tally, Times, InRings, Taken;
    if e.mgrNf && n.portBufs[port] != [] {
      var b, r := n.portBufs[port], FlushPort(e, n, port);
      var k := Taken(n.nic, |b|);
      TallyOfUpdate(n.portBufs, port, [], x);
      SentsOfUpdate(n.ports, port, r.ports[port], x);
      TimesOfSum(n.ports[port].sent, b[..k], x);
      TimesOfSum(n.freed, b[k..], x);
      TimesOfSum(b[..k], b[k..], x);
      assert b[..k] + b[k..] == b;
    }
  }

  lemma {:induction false} FlushAllPortsCopies(e: Env, n: Net, k: nat, x: Pkt)
    requires Ready(e, n) && k <= |e.portIds|
    ensures Copies(FlushAllPorts(e, n, k), x) == Copies(n, x)
  {
    hide Copies, FlushPort;
    if k > 0 {
      FlushAllPortsCopies(e, n, k - 1, x);
      FlushPortCopies(e, FlushAllPorts(e, n, k - 1), e.portIds[k - 1], x);
    }
  }

  lemma PutInPortCopies(n: Net, port: nat, p: Pkt, x: Pkt)
    requires port < |n.portBufs| == |n.posted|
    ensures Copies(PutInPort(n, port, p), x) == Copies(n, x) + Times([p], x)
  {
    hide Tally, Times, InRings;
    TallyOfUpdate(n.portBufs, port, n.portBufs[port] + [p], x);
    TimesOfSum(n.portBufs[port], [p], x);
  }

  lemma EnqueuePortCopies(e: Env, n: Net, port: nat, p: Pkt, x: Pkt)
    requires Ready(e, n) && (port < |e.portIds| ==> e.mgrNf)
    ensures Copies(EnqueuePort(e, n, port, p), x) == Copies(n, x) + Times([p], x)
  {
    hide Copies, Times, FlushPort;
    if port >= |e.portIds| {
      ReleaseCopies(n, [p], x);
    } else {
      var t := PutInPort(n, port, p);
      PutInPortCopies(n, port, p, x);
      if |t.portBufs[port]| == PKT_RD_SIZE {
        FlushPortCopies(e, t, port, x);
      }
    }
  }

  lemma EnqueueTxRingCopies(n: Net, i: nat, x: Pkt)
    requires i < |n.nfs|
    ensures Copies(EnqueueTxRing(n, i), x) == Copies(n, x)
  {
    hide Tally, Times, InRings;
    TimesOfSum(n.nfs[i].txQ, n.txBuf, x);
    TimesOfSum(n.freed, n.txBuf, x);
    RingsOfUpdate(n.nfs, i, EnqueueTxRing(n, i).nfs[i], x);
  }

  lemma PutInTxCopies(n: Net, p: Pkt, x: Pkt)
    ensures Copies(PutInTx(n, p), x) == Copies(n, x) + Times([p], x)
  {
    hide Tally, Times, InRings;
    TimesOfSum(n.txBuf, [p], x);
  }

  // ---------- Batches ----------

  lemma {:induction false} RxEachCopies(e: Env, n: Net, pkts: seq<Pkt>, x: Pkt)
    requires Readable(e) && Ready(e, n)
    requires ArrivalsOk(e, pkts)
    ensures Copies(RxEach(e, n, pkts), x) == Copies(n, x) + Times(pkts, x)
    decreases |pkts|
  {
    hide Copies, Times, EnqueueBq, Reaches, Arrived;
    if pkts == [] {
      TimesOfSum([], [], x);
    } else {
      var p := pkts[0];
      var t := SetMeta(n, p, Arrived(e, n.metas[p], p));
      var y := ServiceChain.NextDst(e.chains[p], 0);
      MetaCopies(n, p, Arrived(e, n.metas[p], p), x);
      EnqueueBqCopies(e, t, y, p, x);
      RxEachCopies(e, EnqueueBq(e, t, y, p), pkts[1..], x);
      assert pkts == [p] + pkts[1..];
      TimesOfSum([p], pkts[1..], x);
    }
  }

  /** Every packet of the batch is afterwards in one place more, every other in as many. */
  lemma RxBatchConserves(e: Env, n: Net, pkts: seq<Pkt>, x: Pkt)
    requires Readable(e) && Ready(e, n)
    requires ArrivalsOk(e, pkts)
    ensures Copies(RxBatch(e, n, pkts), x) == Copies(n, x) + Times(pkts, x)
  {
    hide Copies, Times, RxEach, FlushAllBqs, Readable;
    RxEachCopies(e, n, pkts, x);
    FlushAllBqsCopies(e, RxEach(e, n, pkts), MAX_NFS, x);
  }

  lemma ProcessNextActCopies(e: Env, n: Net, p: Pkt, i: nat, x: Pkt)
    requires Readable(e) && Ready(e, n) && p < |n.metas| && i < MAX_NFS
    requires n.metas[p].act == ServiceChain.NEXT && Sound(e, n.metas[p], p)
    ensures Copies(ProcessNextAct(e, n, p, i), x) == Copies(n, x) + Times([p], x)
  {
    hide Copies, Times, EnqueueBq, EnqueuePort, Reaches, ServiceChain.Advance;
    var meta, stats := ServiceChain.Advance(e.chains[p], n.metas[p]), n.nfs[i].stats;
    var t := SetMeta(n, p, meta);
    MetaCopies(n, p, meta, x);
    ReleaseCopies(t, [p], x);
    if meta.act == ServiceChain.TONF {
      CountActCopies(t, i, stats.(actTonf := stats.actTonf + 1), x);
      EnqueueBqCopies(e, CountAct(t, i, stats.(actTonf := stats.actTonf + 1)), meta.dst, p, x);
    } else if meta.act == ServiceChain.OUT {
      CountActCopies(t, i, stats.(actOut := stats.actOut + 1), x);
      EnqueuePortCopies(e, CountAct(t, i, stats.(actOut := stats.actOut + 1)), meta.dst, p, x);
    }
  }

  lemma OutputCopies(e: Env, n: Net, p: Pkt, i: nat, port: nat, x: Pkt)
    requires Ready(e, n) && i < MAX_NFS
    ensures Copies(Output(e, n, p, i, port), x) == Copies(n, x) + Times([p], x)
  {
    hide Copies, Times, EnqueuePort, EnqueueTxRing;
    if e.mgrNf {
      var stats := n.nfs[i].stats;
      CountActCopies(n, i, stats.(actOut := stats.actOut + 1), x);
      EnqueuePortCopies(e, CountAct(n, i, stats.(actOut := stats.actOut + 1)), port, p, x);
    } else {
      PutInTxCopies(n, p, x);
      EnqueueTxRingCopies(PutInTx(n, p), i, x);
    }
  }

  lemma TxOneCopies(e: Env, n: Net, p: Pkt, i: nat, x: Pkt)
    requires Readable(e) && Ready(e, n) && p < |n.metas| && i < MAX_NFS
    requires n.metas[p].act <= ServiceChain.OUT && Sound(e, n.metas[p], p)
    ensures Copies(TxOne(e, n, p, i), x) == Copies(n, x) + Times([p], x)
  {
    hide Copies, Times, EnqueueBq, Output, ProcessNextAct, Readable;
    var meta, stats := n.metas[p], n.nfs[i].stats;
    if meta.act == ServiceChain.DROP {
      ReleaseCopies(n, [p], x);
    } else if meta.act == ServiceChain.NEXT {
      CountActCopies(n, i, stats.(actNext := stats.actNext + 1), x);
      ProcessNextActCopies(e, CountAct(n, i, stats.(actNext := stats.actNext + 1)), p, i, x);
    } else if meta.act == ServiceChain.TONF {
      CountActCopies(n, i, stats.(actTonf := stats.actTonf + 1), x);
      EnqueueBqCopies(e, CountAct(n, i, stats.(actTonf := stats.actTonf + 1)), meta.dst, p, x);
    } else {
      OutputCopies(e, n, p, i, meta.dst, x);
    }
  }

  lemma {:induction false} TxBatchConserves(e: Env, n: Net, pkts: seq<Pkt>, i: nat, x: Pkt)
    requires Readable(e) && Ready(e, n) && BatchOk(e, n.metas, pkts) && i < MAX_NFS
    ensures Copies(TxBatch(e, n, pkts, i), x) == Copies(n, x) + Times(pkts, x)
    decreases |pkts|
  {
    hide Copies, Times, TxOne, Readable;
    if pkts == [] {
      TimesOfSum([], [], x);
    } else {
      var p := pkts[0];
      var t := Stamped(n, p, i);
      assert pkts == [p] + pkts[1..];
      TimesOfSum([p], pkts[1..], x);
      MetaCopies(n, p, t.metas[p], x);
      if t.metas[p].act > ServiceChain.OUT {
        ReleaseCopies(t, [p], x);
        ReleaseCopies(Release(t, [p]), pkts[1..], x);
      } else {
        TxOneMetas(e, t, p, i);
        RestOk(e, n.metas, TxOne(e, t, p, i).metas, pkts);
        TxOneCopies(e, t, p, i, x);
        TxBatchConserves(e, TxOne(e, t, p, i), pkts[1..], i, x);
      }
    }
  }
}

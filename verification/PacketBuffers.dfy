/**
 The packet path as it runs: meta data, buffers, rings and statistics updated in place.  Each
 method is shown to take the step of module PacketPath that bears its name.
 */
module PacketBuffers {
  import opened Registry
  import opened SharedMemory
  import opened ServiceChain
  import opened PacketPath
  import Router
  import Master

  lemma ReleaseNone(n: Net)
    ensures Release(n, []) == n
  {
    assert n.freed + [] == n.freed;
  }

  lemma StillReady(e: PacketPath.Env, n: Net, p: Pkt, meta: Meta, i: nat, stats: NfStats)
    requires Ready(e, n) && p < |n.metas| && i < MAX_NFS
    ensures Ready(e, SetMeta(n, p, meta)) && Ready(e, CountAct(n, i, stats))
  {
  }

  lemma CountReady(e: PacketPath.Env, n: Net, i: nat, stats: NfStats)
    requires Ready(e, n) && i < MAX_NFS
    ensures Ready(e, CountAct(n, i, stats)) && CountAct(n, i, stats).metas == n.metas
  {
  }

  /** What the first packet of a batch does to it. */
  lemma TxBatchStep(e: PacketPath.Env, n: Net, pkts: seq<Pkt>, i: nat)
    requires Readable(e) && Ready(e, n) && BatchOk(e, n.metas, pkts) && pkts != [] && i < MAX_NFS
    ensures pkts[0] < |n.metas| == |e.rss|
    ensures var p := pkts[0];
            var t := Stamped(n, p, i);
            Ready(e, t) && Sound(e, t.metas[p], p) &&
            if t.metas[p].act > OUT then
              PacketPath.TxBatch(e, n, pkts, i) == Release(t, [p]).(lost := Release(t, [p]).lost + pkts[1..])
            else
              BatchOk(e, PacketPath.TxOne(e, t, p, i).metas, pkts[1..]) &&
              PacketPath.TxBatch(e, n, pkts, i) == PacketPath.TxBatch(e, PacketPath.TxOne(e, t, p, i), pkts[1..], i)
  {
    hide Reaches, PacketPath.TxOne;
    var p := pkts[0];
    var t := Stamped(n, p, i);
    if t.metas[p].act <= OUT {
      TxOneMetas(e, t, p, i);
      RestOk(e, n.metas, PacketPath.TxOne(e, t, p, i).metas, pkts);
    }
  }

  lemma NothingLeft(e: PacketPath.Env, n: Net, i: nat)
    requires Readable(e) && Ready(e, n) && i < MAX_NFS && BatchOk(e, n.metas, [])
    ensures PacketPath.TxBatch(e, n, [], i) == n
  {
  }

  function BurstSent(n: Net, port: nat, b: seq<Pkt>): Net
    requires port < |n.ports|
  {
    var q := n.ports[port];
    n.(nic := if n.nic == [] then [] else n.nic[1..], ports := n.ports[port := q.(sent := q.sent + b[..Taken(n.nic, |b|)])])
  }

  function PortCounted(n: Net, port: nat, tx: nat, txDrop: nat): Net
    requires port < |n.ports|
  {
    var q := n.ports[port];
    n.(ports := n.ports[port := q.(tx := q.tx + tx, txDrop := q.txDrop + txDrop)])
  }

  function PortCleared(n: Net, port: nat): Net
    requires port < |n.portBufs|
  {
    n.(portBufs := n.portBufs[port := []])
  }

  /** The steps of a port flush one by one. */
  lemma FlushPortSteps(e: PacketPath.Env, n: Net, port: nat)
    requires Sized(e, n) && port < |n.ports|
    ensures var b := n.portBufs[port];
            var k := Taken(n.nic, |b|);
            PacketPath.FlushPort(e, n, port) ==
            if !e.mgrNf || b == [] then n
            else PortCleared(PortCounted(PortCounted(Release(BurstSent(n, port, b), b[k..]), port, 0, |b| - k), port, k, 0), port)
  {
  }

  lemma CountNothing(n: Net, p: Pkt, i: nat)
    requires i < |n.nfs|
    ensures CountAct(Release(n, [p]), i, n.nfs[i].stats) == Release(n, [p])
  {
  }

  class BufQueue {
    const m: Shared
    const rss: seq<nat>
    const chains: seq<Links>
    const portIds: seq<nat>
    const mgrNf: bool

    const metas: array<Meta>
    const nfs: array<Queue>
    const rxBufs: array2<Pkt>
    const rxCnt: array<nat>
    const txBuf: array<Pkt>
    var txCnt: nat
    const portBufs: array2<Pkt>
    const portCnt: array<nat>
    const ports: array<Port>
    var nic: seq<nat>
    ghost var freed: seq<Pkt>
    ghost var lost: seq<Pkt>
    ghost var routed: seq<seq<Pkt>>
    ghost var posted: seq<seq<Pkt>>
    ghost var returned: seq<Pkt>

    /** The buffers main and the start of an instance allocate: all are empty. */
    constructor (m: Shared, rss: seq<nat>, chains: seq<Links>, portIds: seq<nat>, mgrNf: bool,
                 metas: array<Meta>, nfs: array<Queue>, ports: array<Port>, nic: seq<nat>)
      requires m.WellFormed() && metas.Length == |rss| && nfs.Length == MAX_NFS
      ensures this.m == m && this.metas == metas && this.nfs == nfs && this.ports == ports
      ensures this.rss == rss && this.chains == chains && this.portIds == portIds && this.mgrNf == mgrNf
      ensures WellFormed() && Abs().txBuf == Abs().returned == [] && Abs().freed == [] && Abs().lost == []
      ensures forall i: nat :: i < MAX_NFS ==> Abs().bufs[i] == [] && Abs().routed[i] == []
      ensures forall k: nat :: k < ports.Length ==> Abs().portBufs[k] == [] && Abs().posted[k] == []
    {
      this.m, this.rss, this.chains, this.portIds, this.mgrNf := m, rss, chains, portIds, mgrNf;
      this.metas, this.nfs, this.ports, this.nic := metas, nfs, ports, nic;
      rxBufs := new Pkt[MAX_NFS, PKT_RD_SIZE]((i, k) => 0);
      rxCnt := new nat[MAX_NFS](i => 0);
      txBuf := new Pkt[PKT_RD_SIZE](k => 0);
      portBufs := new Pkt[ports.Length, PKT_RD_SIZE]((i, k) => 0);
      portCnt := new nat[ports.Length](k => 0);
      txCnt := 0;
      freed, lost, returned := [], [], [];
      routed, posted := seq(MAX_NFS, i => []), seq(ports.Length, k => []);
    }

    /** The arrays have their sizes and are not shared. */
    ghost predicate WellFormed()
      reads this, m, rxCnt, portCnt
    {
      m.WellFormed() && metas.Length == |rss| && nfs.Length == |routed| == MAX_NFS &&
      rxBufs.Length0 == rxCnt.Length == MAX_NFS && rxBufs.Length1 == PKT_RD_SIZE &&
      (forall i :: 0 <= i < MAX_NFS ==> rxCnt[i] <= PKT_RD_SIZE) &&
      txBuf.Length == PKT_RD_SIZE && txCnt <= PKT_RD_SIZE &&
      portBufs.Length0 == portCnt.Length == ports.Length == |posted| && portBufs.Length1 == PKT_RD_SIZE &&
      (forall k :: 0 <= k < portCnt.Length ==> portCnt[k] <= PKT_RD_SIZE) &&
      rxBufs != portBufs && rxBufs != m.nts && portBufs != m.nts &&
      rxCnt != portCnt && txBuf != rxCnt && txBuf != portCnt &&
      m.num !in {rxCnt, portCnt, txBuf} && m.avail !in {rxCnt, portCnt, txBuf}
    }

    function RxBuf(i: nat): (r: seq<Pkt>)
      requires i < rxBufs.Length0 == rxCnt.Length && rxCnt[i] <= rxBufs.Length1
      reads rxBufs, rxCnt
      ensures |r| == rxCnt[i]
    {
      seq(rxCnt[i], k requires 0 <= k < rxCnt[i] <= rxBufs.Length1 reads rxBufs, rxCnt => rxBufs[i, k])
    }

    function PortBuf(port: nat): (r: seq<Pkt>)
      requires port < portBufs.Length0 == portCnt.Length && portCnt[port] <= portBufs.Length1
      reads portBufs, portCnt
      ensures |r| == portCnt[port]
    {
      seq(portCnt[port], k requires 0 <= k < portCnt[port] <= portBufs.Length1 reads portBufs, portCnt => portBufs[port, k])
    }

    ghost function RxBufs(): (r: seq<seq<Pkt>>)
      requires WellFormed()
      reads this, m, rxCnt, portCnt, rxBufs
      ensures |r| == MAX_NFS && forall i :: 0 <= i < MAX_NFS ==> r[i] == RxBuf(i)
    {
      seq(MAX_NFS, i requires 0 <= i < MAX_NFS && WellFormed() reads this, m, rxCnt, portCnt, rxBufs => RxBuf(i))
    }

    ghost function PortBufs(): (r: seq<seq<Pkt>>)
      requires WellFormed()
      reads this, m, rxCnt, portCnt, portBufs
      ensures |r| == ports.Length && forall k :: 0 <= k < ports.Length ==> r[k] == PortBuf(k)
    {
      seq(ports.Length, k requires 0 <= k < ports.Length && WellFormed() reads this, m, rxCnt, portCnt, portBufs => PortBuf(k))
    }

    /** The state of module PacketPath that the memory holds. */
    ghost function Abs(): (n: Net)
      requires WellFormed()
      reads this, m, rxCnt, portCnt, rxBufs, portBufs, metas, nfs, txBuf, ports
      ensures n.metas == metas[..] && n.nfs == nfs[..] && n.ports == ports[..] && n.nic == nic
      ensures |n.txBuf| == txCnt && n.txBuf == txBuf[..txCnt]
      ensures |n.bufs| == |n.routed| == MAX_NFS && forall i :: 0 <= i < MAX_NFS ==> n.bufs[i] == RxBuf(i)
      ensures |n.portBufs| == |n.posted| == ports.Length && forall k :: 0 <= k < ports.Length ==> n.portBufs[k] == PortBuf(k)
    {
      Net(metas[..], nfs[..], RxBufs(), txBuf[..txCnt], PortBufs(), ports[..], nic, freed, lost, routed, posted, returned)
    }

    ghost function Env(): (e: Env)
      requires WellFormed()
      reads this, m, rxCnt, portCnt, m.infos, m.nfs, m.nts, m.num, m.avail
      ensures e.s == m.Abs() && e.rss == rss && e.chains == chains && e.portIds == portIds && e.mgrNf == mgrNf
    {
      PacketPath.Env(m.Abs(), rss, chains, portIds, mgrNf)
    }

    /** d2sc_pkt_drop: it returns 1 for any packet. */
    method Drop(p: Pkt) returns (r: nat)
      requires WellFormed()
      modifies this`freed
      ensures WellFormed() && Env() == old(Env()) && Abs() == Release(old(Abs()), [p])
      ensures r == 1
    {
      freed := freed + [p];
      r := 1;
    }

    /** The loops that drop a whole buffer, and d2sc_pkt_drop_batch. */
    method DropAll(ps: seq<Pkt>)
      requires WellFormed()
      modifies this`freed
      ensures WellFormed() && Env() == old(Env()) && Abs() == Release(old(Abs()), ps)
    {
      hide Abs, Env, WellFormed;
      assert Release(Abs(), ps[..0]) == Abs() by { ReleaseNone(Abs()); }
      for k := 0 to |ps|
        invariant WellFormed() && Env() == old(Env()) && Abs() == Release(old(Abs()), ps[..k])
      {
        var _ := Drop(ps[k]);
        assert ps[..k + 1] == ps[..k] + [ps[k]];
      }
      assert ps[..|ps|] == ps;
    }

    /** Packets are forgotten: nothing holds them any more. */
    ghost method Forget(ps: seq<Pkt>)
      requires WellFormed()
      modifies this`lost
      ensures WellFormed() && Env() == old(Env()) && Abs() == old(Abs()).(lost := old(Abs()).lost + ps)
    {
      lost := lost + ps;
    }

    method StoreMeta(p: Pkt, meta: Meta)
      requires WellFormed() && p < |rss|
      modifies metas
      ensures WellFormed() && Env() == old(Env()) && Abs() == SetMeta(old(Abs()), p, meta)
    {
      metas[p] := meta;
    }

    method StoreQueue(i: nat, q: Queue)
      requires WellFormed() && i < MAX_NFS
      modifies nfs
      ensures WellFormed() && Env() == old(Env()) && Abs() == old(Abs()).(nfs := old(Abs()).nfs[i := q])
    {
      nfs[i] := q;
    }

    method Count(i: nat, stats: NfStats)
      requires WellFormed() && i < MAX_NFS
      modifies nfs
      ensures WellFormed() && Env() == old(Env()) && Abs() == CountAct(old(Abs()), i, stats)
    {
      StoreQueue(i, nfs[i].(stats := stats));
    }

    method PutInBuffer(i: nat, p: Pkt)
      requires WellFormed() && i < MAX_NFS && rxCnt[i] < PKT_RD_SIZE
      modifies this`routed, rxBufs, rxCnt
      ensures WellFormed() && Env() == old(Env()) && Abs() == PacketPath.PutInBuffer(old(Abs()), i, p)
    {
      ghost var before := Abs();
      rxBufs[i, rxCnt[i]] := p;
      rxCnt[i] := rxCnt[i] + 1;
      routed := routed[i := routed[i] + [p]];
      assert RxBuf(i) == before.bufs[i] + [p];
      assert forall j: nat :: j < MAX_NFS && j != i ==> RxBuf(j) == before.bufs[j];
      assert RxBufs() == before.bufs[i := before.bufs[i] + [p]];
    }

    method ClearBuffer(i: nat)
      requires WellFormed() && i < MAX_NFS
      modifies rxCnt
      ensures WellFormed() && Env() == old(Env()) && Abs() == old(Abs()).(bufs := old(Abs()).bufs[i := []])
    {
      ghost var before := Abs();
      rxCnt[i] := 0;
      assert forall j: nat :: j < MAX_NFS && j != i ==> RxBuf(j) == before.bufs[j];
      assert RxBufs() == before.bufs[i := []];
    }

    /** The buffer goes into the ring, all or nothing. */
    method EmptyBuffer(i: nat)
      requires WellFormed() && i < MAX_NFS
      modifies this`freed, nfs, rxCnt
      ensures WellFormed() && Env() == old(Env()) && Abs() == PacketPath.EmptyBuffer(old(Abs()), i)
    {
      hide Abs, Env;
      var q, b := nfs[i], RxBuf(i);
      if |q.rxQ| + rxCnt[i] <= RING_ROOM {
        StoreQueue(i, q.(rxQ := q.rxQ + b, stats := q.stats.(rx := q.stats.rx + rxCnt[i])));
      } else {
        DropAll(b);
        StoreQueue(i, q.(stats := q.stats.(rxDrop := q.stats.rxDrop + rxCnt[i])));
      }
      ClearBuffer(i);
    }

    /** d2sc_pkt_flush_nf_bq */
    method FlushNf(i: nat)
      requires WellFormed() && Readable(Env()) && Sized(Env(), Abs()) && i < MAX_NFS
      modifies this`freed, nfs, rxCnt
      ensures WellFormed() && Env() == old(Env()) && Abs() == PacketPath.FlushNf(Env(), old(Abs()), i)
    {
      hide Sized, Routes, PacketPath.EmptyBuffer, Abs, Env;
      if rxCnt[i] == 0 {
        return;
      }
      var valid := Master.IsValid(m, i);
      if !valid {
        return;
      }
      EmptyBuffer(i);
    }

    /** d2sc_pkt_enqueue_bq */
    method EnqueueBq(y: nat, p: Pkt)
      requires WellFormed() && Readable(Env()) && Ready(Env(), Abs()) && Reaches(Env(), y, p)
      modifies this`freed, this`routed, nfs, rxBufs, rxCnt
      ensures WellFormed() && Env() == old(Env()) && Abs() == PacketPath.EnqueueBq(Env(), old(Abs()), y, p)
    {
      hide PacketPath.FlushNf, Router.Chosen, Router.Terminates, Router.Hashed, Abs, Env;
      var dst := Router.NtToNfMap(m, y, rss[p]);
      if dst == 0 {
        var _ := Drop(p);
        return;
      }
      var valid := Master.IsValid(m, dst);
      if !valid {
        var _ := Drop(p);
        return;
      }
      assert |Abs().bufs[dst]| == rxCnt[dst];
      PutInBuffer(dst, p);
      assert |Abs().bufs[dst]| == rxCnt[dst];
      if rxCnt[dst] == PKT_RD_SIZE {
        FlushNf(dst);
      }
    }

    /** d2sc_pkt_flush_all_bqs */
    method FlushAllBqs()
      requires WellFormed() && Readable(Env()) && Ready(Env(), Abs())
      modifies this`freed, nfs, rxCnt
      ensures WellFormed() && Env() == old(Env()) && Abs() == PacketPath.FlushAllBqs(Env(), old(Abs()), MAX_NFS)
    {
      hide Readable, PacketPath.FlushNf, Env, Abs;
      for i := 0 to MAX_NFS
        invariant WellFormed() && Env() == old(Env()) && Abs() == PacketPath.FlushAllBqs(Env(), old(Abs()), i)
      {
        FlushNf(i);
      }
    }

    /** d2sc_pkt_process_rx_batch */
    method RxBatch(pkts: seq<Pkt>)
      requires WellFormed() && Readable(Env()) && Ready(Env(), Abs())
      requires ArrivalsOk(Env(), pkts)
      modifies this`freed, this`routed, nfs, rxBufs, rxCnt, metas
      ensures WellFormed() && Env() == old(Env()) && Abs() == PacketPath.RxBatch(Env(), old(Abs()), pkts)
    {
      hide Reaches, PacketPath.EnqueueBq, PacketPath.FlushAllBqs, NextAct, NextDst, Abs, Env, Ready;
      for i := 0 to |pkts|
        invariant WellFormed() && Env() == old(Env()) && Ready(Env(), Abs())
        invariant RxEach(Env(), Abs(), pkts[i..]) == RxEach(Env(), old(Abs()), pkts)
      {
        ghost var before := Abs();
        var p := pkts[i];
        var meta := metas[p].(src := 0, scIndex := 0);
        meta := meta.(act := NextAct(chains[p], meta.scIndex), dst := NextDst(chains[p], meta.scIndex));
        meta := meta.(scIndex := (meta.scIndex + 1) % 256);
        StillReady(Env(), Abs(), p, meta, 0, nfs[0].stats);
        StoreMeta(p, meta);
        EnqueueBq(meta.dst, p);
        assert pkts[i..][0] == p && pkts[i..][1..] == pkts[i + 1..];
      }
      FlushAllBqs();
    }

    /** What the RX thread does with a batch: while no instance is ready it drops the batch. */
    method Receive(pkts: seq<Pkt>)
      requires WellFormed() && Readable(Env()) && Ready(Env(), Abs())
      requires m.numNfs > 0 ==> ArrivalsOk(Env(), pkts)
      modifies this`freed, this`routed, nfs, rxBufs, rxCnt, metas
      ensures WellFormed() && Env() == old(Env())
      ensures Abs() == if m.numNfs > 0 then PacketPath.RxBatch(Env(), old(Abs()), pkts) else Release(old(Abs()), pkts)
    {
      hide Readable, PacketPath.RxBatch, Abs, Env, Ready, ArrivalsOk, WellFormed;
      if m.numNfs == 0 {
        DropAll(pkts);
      } else {
        RxBatch(pkts);
      }
    }

    // ---------- Ports ----------

    /** The NIC takes some packets from the head of a burst. */
    method TxBurst(port: nat, b: seq<Pkt>) returns (taken: nat)
      requires WellFormed() && port < ports.Length
      modifies this`nic, ports
      ensures WellFormed() && Env() == old(Env()) && taken == Taken(old(nic), |b|)
      ensures Abs() == BurstSent(old(Abs()), port, b)
    {
      taken := Taken(nic, |b|);
      nic := if nic == [] then [] else nic[1..];
      ports[port] := ports[port].(sent := ports[port].sent + b[..taken]);
    }

    method CountPort(port: nat, tx: nat, txDrop: nat)
      requires WellFormed() && port < ports.Length
      modifies ports
      ensures WellFormed() && Env() == old(Env()) && Abs() == PortCounted(old(Abs()), port, tx, txDrop)
    {
      ports[port] := ports[port].(txDrop := ports[port].txDrop + txDrop);
      ports[port] := ports[port].(tx := ports[port].tx + tx);
    }

    method ClearPort(port: nat)
      requires WellFormed() && port < ports.Length
      modifies portCnt
      ensures WellFormed() && Env() == old(Env()) && Abs() == PortCleared(old(Abs()), port)
    {
      ghost var before := Abs();
      portCnt[port] := 0;
      assert forall j: nat :: j < ports.Length && j != port ==> PortBuf(j) == before.portBufs[j];
      assert PortBufs() == before.portBufs[port := []];
    }

    /** d2sc_pkt_flush_port_bq */
    method FlushPort(port: nat)
      requires WellFormed() && Sized(Env(), Abs()) && port < ports.Length
      modifies this`freed, this`nic, ports, portCnt
      ensures WellFormed() && Env() == old(Env()) && Abs() == PacketPath.FlushPort(Env(), old(Abs()), port)
    {
      hide Abs, Env, Taken, BurstSent, PortCounted, PortCleared, Release, Sized, PacketPath.FlushPort;
      FlushPortSteps(Env(), Abs(), port);
      if !mgrNf {
        return;
      }
      if portCnt[port] == 0 {
        return;
      }
      var b := PortBuf(port);
      var nbTx := TxBurst(port, b);
      var drops := b[nbTx..];
      if nbTx < portCnt[port] {
        DropAll(drops);
      } else {
        ReleaseNone(Abs());
        assert drops == [];
      }
      CountPort(port, 0, portCnt[port] - nbTx);
      CountPort(port, nbTx, 0);
      ClearPort(port);
    }

    /** d2sc_pkt_flush_all_ports */
    method FlushAllPorts()
      requires WellFormed() && Ready(Env(), Abs())
      modifies this`freed, this`nic, ports, portCnt
      ensures WellFormed() && Env() == old(Env()) && Abs() == PacketPath.FlushAllPorts(Env(), old(Abs()), |portIds|)
    {
      hide PacketPath.FlushPort, Abs, Env;
      for k := 0 to |portIds|
        invariant WellFormed() && Env() == old(Env()) && Abs() == PacketPath.FlushAllPorts(Env(), old(Abs()), k)
      {
        FlushPort(portIds[k]);
      }
    }

    method PutInPort(port: nat, p: Pkt)
      requires WellFormed() && port < ports.Length && portCnt[port] < PKT_RD_SIZE
      modifies this`posted, portBufs, portCnt
      ensures WellFormed() && Env() == old(Env()) && Abs() == PacketPath.PutInPort(old(Abs()), port, p)
    {
      ghost var before := Abs();
      portBufs[port, portCnt[port]] := p;
      portCnt[port] := portCnt[port] + 1;
      posted := posted[port := posted[port] + [p]];
      assert PortBuf(port) == before.portBufs[port] + [p];
      assert forall j: nat :: j < ports.Length && j != port ==> PortBuf(j) == before.portBufs[j];
      assert PortBufs() == before.portBufs[port := before.portBufs[port] + [p]];
    }

    /** d2sc_pkt_enqueue_port */
    method EnqueuePort(port: nat, p: Pkt)
      requires WellFormed() && Ready(Env(), Abs()) && (port < |portIds| ==> mgrNf)
      modifies this`freed, this`lost, this`posted, this`nic, ports, portBufs, portCnt
      ensures WellFormed() && Env() == old(Env()) && Abs() == PacketPath.EnqueuePort(Env(), old(Abs()), port, p)
    {
      hide PacketPath.FlushPort, Abs, Env;
      if port >= |portIds| {
        Forget([p]);
        return;
      }
      assert |Abs().portBufs[port]| == portCnt[port];
      PutInPort(port, p);
      assert |Abs().portBufs[port]| == portCnt[port];
      if portCnt[port] == PKT_RD_SIZE {
        FlushPort(port);
      }
    }

    // ---------- Packets from an instance ----------

    /** d2sc_pkt_enqueue_tx_ring */
    method EnqueueTxRing(i: nat)
      requires WellFormed() && i < MAX_NFS
      modifies this`freed, this`txCnt, nfs
      ensures WellFormed() && Env() == old(Env()) && Abs() == PacketPath.EnqueueTxRing(old(Abs()), i)
    {
      hide Abs, Env;
      if txCnt == 0 {
        return;
      }
      var q, b := nfs[i], txBuf[..txCnt];
      if |q.txQ| + txCnt <= RING_ROOM {
        StoreQueue(i, q.(txQ := q.txQ + b, stats := q.stats.(tx := q.stats.tx + txCnt)));
      } else {
        StoreQueue(i, q.(stats := q.stats.(txDrop := q.stats.txDrop + txCnt)));
        DropAll(b);
      }
      ClearTx();
    }

    method ClearTx()
      requires WellFormed()
      modifies this`txCnt
      ensures WellFormed() && Env() == old(Env()) && Abs() == old(Abs()).(txBuf := [])
    {
      txCnt := 0;
    }

    /** The case of TONF. */
    method ToInstance(p: Pkt, i: nat, y: nat)
      requires WellFormed() && Readable(Env()) && Ready(Env(), Abs()) && Reaches(Env(), y, p) && i < MAX_NFS
      modifies this`freed, this`routed, nfs, rxBufs, rxCnt
      ensures WellFormed() && Env() == old(Env()) && Abs() == PacketPath.ToInstance(Env(), old(Abs()), p, i, y)
    {
      hide Readable, Reaches, PacketPath.EnqueueBq, Abs, Env, Ready, CountAct;
      var stats := nfs[i].stats;
      CountReady(Env(), Abs(), i, stats.(actTonf := stats.actTonf + 1));
      Count(i, stats.(actTonf := stats.actTonf + 1));
      EnqueueBq(y, p);
    }

    /** The switch of d2sc_pkt_process_next_act. */
    method Forward(p: Pkt, i: nat, meta: Meta)
      requires WellFormed() && Readable(Env()) && Ready(Env(), Abs()) && p < |rss| && i < MAX_NFS
      requires Passable(Env(), meta, p)
      modifies this`freed, this`lost, this`routed, this`posted, this`nic, nfs, rxBufs, rxCnt, ports, portBufs, portCnt
      ensures WellFormed() && Env() == old(Env()) && Abs() == PacketPath.Forward(Env(), old(Abs()), p, i, meta)
    {
      hide Readable, PacketPath.ToInstance, PacketPath.EnqueuePort, Abs, Env, Ready, CountAct, Release;
      var stats := nfs[i].stats;
      if meta.act == DROP {
        CountNothing(Abs(), p, i);
        var r := Drop(p);
        Count(i, stats.(actDrop := stats.actDrop + if r == 0 then 1 else 0));
      } else if meta.act == TONF {
        ToInstance(p, i, meta.dst);
      } else if meta.act == OUT {
        StillReady(Env(), Abs(), p, meta, i, stats.(actOut := stats.actOut + 1));
        Count(i, stats.(actOut := stats.actOut + 1));
        EnqueuePort(meta.dst, p);
      } else {
        Forget([p]);
      }
    }

    /** d2sc_pkt_process_next_act */
    method ProcessNextAct(p: Pkt, i: nat)
      requires WellFormed() && Readable(Env()) && Ready(Env(), Abs()) && p < |rss| && i < MAX_NFS
      requires metas[p].act == NEXT && Sound(Env(), metas[p], p)
      modifies this`freed, this`lost, this`routed, this`posted, this`nic, metas, nfs, rxBufs, rxCnt, ports, portBufs, portCnt
      ensures WellFormed() && Env() == old(Env()) && Abs() == PacketPath.ProcessNextAct(Env(), old(Abs()), p, i)
    {
      hide Reaches, PacketPath.Forward, NextAct, NextDst, Abs, Env, Ready;
      var meta := metas[p].(act := NextAct(chains[p], metas[p].scIndex), dst := NextDst(chains[p], metas[p].scIndex));
      meta := meta.(scIndex := (meta.scIndex + 1) % 256);
      StillReady(Env(), Abs(), p, meta, i, nfs[i].stats);
      StoreMeta(p, meta);
      Forward(p, i, meta);
    }

    /** The case of NEXT. */
    method ToNext(p: Pkt, i: nat)
      requires WellFormed() && Readable(Env()) && Ready(Env(), Abs()) && p < |rss| && i < MAX_NFS
      requires metas[p].act == NEXT && Sound(Env(), metas[p], p)
      modifies this`freed, this`lost, this`routed, this`posted, this`nic, metas, nfs, rxBufs, rxCnt, ports, portBufs, portCnt
      ensures WellFormed() && Env() == old(Env()) && Abs() == PacketPath.ToNext(Env(), old(Abs()), p, i)
    {
      hide Readable, Sound, PacketPath.ProcessNextAct, Abs, Env, Ready, CountAct;
      var stats := nfs[i].stats;
      CountReady(Env(), Abs(), i, stats.(actNext := stats.actNext + 1));
      Count(i, stats.(actNext := stats.actNext + 1));
      ProcessNextAct(p, i);
    }

    /** The switch of d2sc_pkt_process_tx_batch for a valid action. */
    method TxOne(p: Pkt, i: nat)
      requires WellFormed() && Readable(Env()) && Ready(Env(), Abs()) && p < |rss| && i < MAX_NFS
      requires metas[p].act <= OUT && Sound(Env(), metas[p], p)
      modifies this`freed, this`lost, this`routed, this`posted, this`nic, this`txCnt, this`returned
      modifies metas, nfs, rxBufs, rxCnt, txBuf, ports, portBufs, portCnt
      ensures WellFormed() && Env() == old(Env()) && Abs() == PacketPath.TxOne(Env(), old(Abs()), p, i)
    {
      hide Reaches, PacketPath.ToInstance, PacketPath.Output, PacketPath.ToNext;
      hide Abs, Env, Ready, CountAct, Release, Advance;
      var meta, stats := metas[p], nfs[i].stats;
      if meta.act == DROP {
        CountNothing(Abs(), p, i);
        var r := Drop(p);
        Count(i, stats.(actDrop := stats.actDrop + if r == 0 then 1 else 0));
      } else if meta.act == NEXT {
        ToNext(p, i);
      } else if meta.act == TONF {
        ToInstance(p, i, meta.dst);
      } else {
        Output(p, i, meta.dst);
      }
    }

    /** The case of OUT. */
    method Output(p: Pkt, i: nat, port: nat)
      requires WellFormed() && Ready(Env(), Abs()) && i < MAX_NFS
      modifies this`freed, this`lost, this`posted, this`nic, this`txCnt, this`returned, nfs, txBuf, ports, portBufs, portCnt
      ensures WellFormed() && Env() == old(Env()) && Abs() == PacketPath.Output(Env(), old(Abs()), p, i, port)
    {
      hide PacketPath.EnqueuePort, PacketPath.EnqueueTxRing, Abs, Env, Ready, CountAct;
      if mgrNf {
        var stats := nfs[i].stats;
        CountReady(Env(), Abs(), i, stats.(actOut := stats.actOut + 1));
        Count(i, stats.(actOut := stats.actOut + 1));
        EnqueuePort(port, p);
      } else {
        PutInTx(p);
        if txCnt == PKT_RD_SIZE {
          EnqueueTxRing(i);
        }
      }
    }

    method PutInTx(p: Pkt)
      requires WellFormed() && Ready(Env(), Abs())
      modifies this`txCnt, this`returned, txBuf
      ensures WellFormed() && Env() == old(Env()) && Abs() == PacketPath.PutInTx(old(Abs()), p)
    {
      txBuf[txCnt] := p;
      txCnt := txCnt + 1;
      returned := returned + [p];
      assert txBuf[..txCnt] == old(txBuf[..txCnt]) + [p];
    }

    /** The body of the loop: the batch goes on only after a valid action. */
    method TxStep(p: Pkt, i: nat) returns (valid: bool)
      requires WellFormed() && Readable(Env()) && Ready(Env(), Abs()) && p < |rss| && i < MAX_NFS
      requires Sound(Env(), Stamped(Abs(), p, i).metas[p], p) && Ready(Env(), Stamped(Abs(), p, i))
      modifies this`freed, this`lost, this`routed, this`posted, this`nic, this`txCnt, this`returned
      modifies metas, nfs, rxBufs, rxCnt, txBuf, ports, portBufs, portCnt
      ensures WellFormed() && Env() == old(Env()) && valid == (old(metas[p].act) <= OUT)
      ensures Abs() == if valid then PacketPath.TxOne(Env(), Stamped(old(Abs()), p, i), p, i)
                       else Release(Stamped(old(Abs()), p, i), [p])
    {
      hide Readable, PacketPath.TxOne, Abs, Env, Ready, Sound, Release;
      StoreMeta(p, metas[p].(src := i));
      valid := metas[p].act <= OUT;
      if valid {
        TxOne(p, i);
      } else {
        var _ := Drop(p);
      }
    }

    /** d2sc_pkt_process_tx_batch */
    method TxBatch(pkts: seq<Pkt>, i: nat)
      requires WellFormed() && Readable(Env()) && Ready(Env(), Abs()) && BatchOk(Env(), Abs().metas, pkts) && i < MAX_NFS
      modifies this`freed, this`lost, this`routed, this`posted, this`nic, this`txCnt, this`returned
      modifies metas, nfs, rxBufs, rxCnt, txBuf, ports, portBufs, portCnt
      ensures WellFormed() && Env() == old(Env()) && Abs() == PacketPath.TxBatch(Env(), old(Abs()), pkts, i)
    {
      hide Readable, PacketPath.TxOne, PacketPath.TxBatch, Abs, Env, Ready, BatchOk, Sound, Release;
      assert pkts[0..] == pkts;
      for k := 0 to |pkts|
        invariant WellFormed() && Env() == old(Env()) && Ready(Env(), Abs()) && BatchOk(Env(), Abs().metas, pkts[k..])
        invariant PacketPath.TxBatch(Env(), Abs(), pkts[k..], i) == PacketPath.TxBatch(Env(), old(Abs()), pkts, i)
      {
        assert pkts[k..][0] == pkts[k] && pkts[k..][1..] == pkts[k + 1..];
        TxBatchStep(Env(), Abs(), pkts[k..], i);
        var valid := TxStep(pkts[k], i);
        if !valid {
          Forget(pkts[k + 1..]);
          return;
        }
      }
      NothingLeft(Env(), Abs(), i);
    }
  }
}

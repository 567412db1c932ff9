/**
 The packet path of one buffer queue as functions from state to state: routing, the buffers
 of 32 packets, the bounded rings, and the NIC.  Histories of freed, lost, routed and sent
 packets are part of the state so that nothing can go missing unseen.
 */
module PacketPath {
  import opened Registry
  import opened ServiceChain
  import Router

  /** A packet is known by the number of its meta data. */
  type Pkt = nat

  const PKT_RD_SIZE: nat := 32

  /** A ring made for NF_RING_SIZE entries holds one fewer. */
  const RING_ROOM: nat := 16383

  datatype NfStats = NfStats(rx: nat, rxDrop: nat, tx: nat, txDrop: nat,
                             actOut: nat, actTonf: nat, actDrop: nat, actNext: nat)

  /** The rings and statistics of an instance. */
  datatype Queue = Queue(rxQ: seq<Pkt>, txQ: seq<Pkt>, stats: NfStats)

  /** A NIC port: its statistics and the packets it has taken. */
  datatype Port = Port(tx: nat, txDrop: nat, sent: seq<Pkt>)

  /** The state the packet path changes, as the owner of one buffer queue sees it.  nic holds
      how many packets each coming burst takes; routed, posted and returned list what the owner
      has put into its buffers for each instance, for each port, and for the tx ring. */
  datatype Net = Net(
    metas: seq<Meta>, nfs: seq<Queue>, bufs: seq<seq<Pkt>>, txBuf: seq<Pkt>,
    portBufs: seq<seq<Pkt>>, ports: seq<Port>, nic: seq<nat>,
    freed: seq<Pkt>, lost: seq<Pkt>, routed: seq<seq<Pkt>>, posted: seq<seq<Pkt>>, returned: seq<Pkt>)

  /** What a call only reads: the manager's state, the hash of each packet, the chain the flow
      table or the default gives each packet, the ports, and whose buffer queue it is. */
  datatype Env = Env(s: State, rss: seq<nat>, chains: seq<Links>, portIds: seq<nat>, mgrNf: bool)

  /** The search for an instance for a packet with hash h ends. */
  ghost predicate Routes(s: State, y: nat, h: nat)
    requires Shape(s) && PointersOk(s) && y < MAX_NTS
  {
    s.num[y] <= MAX_NFS_PER_NT && (s.num[y] > 0 ==> Router.Hashed(s, y, h) < MAX_NFS) && Router.Terminates(s, y, h)
  }

  ghost predicate Readable(e: Env) {
    Shape(e.s) && PointersOk(e.s) && |e.rss| == |e.chains| && forall p :: 0 <= p < |e.chains| ==> Fits(e.chains[p])
  }

  /** Packet p can be routed to type y. */
  ghost predicate Reaches(e: Env, y: nat, p: Pkt)
    requires Readable(e)
  {
    y < MAX_NTS && p < |e.rss| && Routes(e.s, y, e.rss[p])
  }

  /** The sizes fit each other, and no buffer holds more than its slots. */
  ghost predicate Sized(e: Env, n: Net) {
    |n.nfs| == |n.bufs| == |n.routed| == MAX_NFS && |n.metas| == |e.rss| &&
    |n.portBufs| == |n.posted| == |n.ports| && |e.portIds| <= |n.ports| &&
    (forall k :: 0 <= k < |e.portIds| ==> e.portIds[k] < |n.ports|) &&
    (forall i :: 0 <= i < MAX_NFS ==> |n.bufs[i]| <= PKT_RD_SIZE)
  }

  /** Every buffer has a free slot: the state between calls. */
  ghost predicate Ready(e: Env, n: Net) {
    Sized(e, n) && |n.txBuf| < PKT_RD_SIZE &&
    (forall i :: 0 <= i < MAX_NFS ==> |n.bufs[i]| < PKT_RD_SIZE) &&
    (forall k :: 0 <= k < |n.portBufs| ==> |n.portBufs[k]| < PKT_RD_SIZE)
  }

  function Release(n: Net, ps: seq<Pkt>): Net {
    n.(freed := n.freed + ps)
  }

  // ---------- Towards the instances ----------

  /** The instance whose buffer a packet for type y goes into, if any. */
  function Target(e: Env, y: nat, p: Pkt): (r: Option<nat>)
    requires Readable(e) && Reaches(e, y, p)
    ensures r.Some? ==> 0 < r.value < MAX_NFS && Valid(e.s, r.value)
  {
    var i := Router.Chosen(e.s, y, e.rss[p]);
    if i == 0 || !Valid(e.s, i) then None else Some(i)
  }

  /** The buffer of instance i after it went, all or nothing, into the ring. */
  function EmptyBuffer(n: Net, i: nat): Net
    requires i < |n.nfs| == |n.bufs|
  {
    var q, b := n.nfs[i], n.bufs[i];
    if |q.rxQ| + |b| <= RING_ROOM then
      n.(nfs := n.nfs[i := q.(rxQ := q.rxQ + b, stats := q.stats.(rx := q.stats.rx + |b|))], bufs := n.bufs[i := []])
    else
      Release(n, b).(nfs := n.nfs[i := q.(stats := q.stats.(rxDrop := q.stats.rxDrop + |b|))], bufs := n.bufs[i := []])
  }

  /** d2sc_pkt_flush_nf_bq */
  function FlushNf(e: Env, n: Net, i: nat): Net
    requires Readable(e) && Sized(e, n) && i < MAX_NFS
  {
    if n.bufs[i] == [] || !Valid(e.s, i) then n else EmptyBuffer(n, i)
  }

  function PutInBuffer(n: Net, i: nat, p: Pkt): Net
    requires i < |n.bufs| == |n.routed|
  {
    n.(bufs := n.bufs[i := n.bufs[i] + [p]], routed := n.routed[i := n.routed[i] + [p]])
  }

  /** d2sc_pkt_enqueue_bq */
  function EnqueueBq(e: Env, n: Net, y: nat, p: Pkt): (r: Net)
    requires Readable(e) && Ready(e, n) && Reaches(e, y, p)
    ensures Ready(e, r)
  {
    match Target(e, y, p)
    case None => Release(n, [p])
    case Some(i) =>
      var t := PutInBuffer(n, i, p);
      if |t.bufs[i]| == PKT_RD_SIZE then FlushNf(e, t, i) else t
  }

  /** d2sc_pkt_flush_all_bqs for the first k instances */
  function FlushAllBqs(e: Env, n: Net, k: nat): (r: Net)
    requires Readable(e) && Ready(e, n) && k <= MAX_NFS
    ensures Ready(e, r)
  {
    if k == 0 then n else FlushNf(e, FlushAllBqs(e, n, k - 1), k - 1)
  }

  // ---------- Towards the ports ----------

  /** How many packets of a burst the NIC takes. */
  function Taken(nic: seq<nat>, count: nat): (r: nat)
    ensures r <= count
  {
    if nic == [] || nic[0] > count then count else nic[0]
  }

  /** d2sc_pkt_flush_port_bq */
  function FlushPort(e: Env, n: Net, port: nat): (r: Net)
    requires Sized(e, n) && port < |n.ports|
    ensures Sized(e, r)
  {
    if !e.mgrNf || n.portBufs[port] == [] then n
    else
      var b, q := n.portBufs[port], n.ports[port];
      var k := Taken(n.nic, |b|);
      Release(n, b[k..]).(
        nic := if n.nic == [] then [] else n.nic[1..],
        ports := n.ports[port := Port(q.tx + k, q.txDrop + (|b| - k), q.sent + b[..k])],
        portBufs := n.portBufs[port := []])
  }

  /** d2sc_pkt_flush_all_ports for the first k ports */
  function FlushAllPorts(e: Env, n: Net, k: nat): (r: Net)
    requires Ready(e, n) && k <= |e.portIds|
    ensures Ready(e, r) && |r.ports| == |n.ports|
  {
    if k == 0 then n else FlushPort(e, FlushAllPorts(e, n, k - 1), e.portIds[k - 1])
  }

  function PutInPort(n: Net, port: nat, p: Pkt): Net
    requires port < |n.portBufs| == |n.posted|
  {
    n.(portBufs := n.portBufs[port := n.portBufs[port] + [p]], posted := n.posted[port := n.posted[port] + [p]])
  }

  /** d2sc_pkt_enqueue_port: a packet for a port that does not exist is forgotten. */
  function EnqueuePort(e: Env, n: Net, port: nat, p: Pkt): (r: Net)
    requires Ready(e, n) && (port < |e.portIds| ==> e.mgrNf)
    ensures Ready(e, r)
  {
    if port >= |e.portIds| then n.(lost := n.lost + [p])
    else
      var t := PutInPort(n, port, p);
      if |t.portBufs[port]| == PKT_RD_SIZE then FlushPort(e, t, port) else t
  }

  /** d2sc_pkt_enqueue_tx_ring */
  function EnqueueTxRing(n: Net, i: nat): Net
    requires i < |n.nfs|
  {
    var q, b := n.nfs[i], n.txBuf;
    if b == [] then n
    else if |q.txQ| + |b| <= RING_ROOM then
      n.(nfs := n.nfs[i := q.(txQ := q.txQ + b, stats := q.stats.(tx := q.stats.tx + |b|))], txBuf := [])
    else
      Release(n, b).(nfs := n.nfs[i := q.(stats := q.stats.(txDrop := q.stats.txDrop + |b|))], txBuf := [])
  }

  // ---------- Batches ----------

  function SetMeta(n: Net, p: Pkt, meta: Meta): Net
    requires p < |n.metas|
  {
    n.(metas := n.metas[p := meta])
  }

  function CountAct(n: Net, i: nat, stats: NfStats): Net
    requires i < |n.nfs|
  {
    n.(nfs := n.nfs[i := n.nfs[i].(stats := stats)])
  }

  /** The first lookup of a packet from the NIC. */
  function Arrived(e: Env, meta: Meta, p: Pkt): Meta
    requires Readable(e) && p < |e.rss|
  {
    Advance(e.chains[p], meta.(src := 0, scIndex := 0))
  }

  /** Each packet from the NIC can be routed to the type its chain names first. */
  ghost predicate ArrivalsOk(e: Env, pkts: seq<Pkt>)
    requires Readable(e)
  {
    forall k :: 0 <= k < |pkts| ==> pkts[k] < |e.rss| && Reaches(e, NextDst(e.chains[pkts[k]], 0), pkts[k])
  }

  /** The loop of d2sc_pkt_process_rx_batch: whatever the action, the packet goes to an
      instance of the type the chain names. */
  function RxEach(e: Env, n: Net, pkts: seq<Pkt>): (r: Net)
    requires Readable(e) && Ready(e, n)
    requires ArrivalsOk(e, pkts)
    ensures Ready(e, r)
    decreases |pkts|
  {
    if pkts == [] then n
    else
      var p := pkts[0];
      var t := SetMeta(n, p, Arrived(e, n.metas[p], p));
      RxEach(e, EnqueueBq(e, t, NextDst(e.chains[p], 0), p), pkts[1..])
  }

  /** d2sc_pkt_process_rx_batch */
  function RxBatch(e: Env, n: Net, pkts: seq<Pkt>): (r: Net)
    requires Readable(e) && Ready(e, n)
    requires ArrivalsOk(e, pkts)
    ensures Ready(e, r)
  {
    FlushAllBqs(e, RxEach(e, n, pkts), MAX_NFS)
  }

  /** What the code asks of the meta data of a returned packet: it can be routed if it is to be,
      and a NEXT that leads to a port number in range is met on a queue of the manager, because
      the queue of an instance has no port buffers. */
  ghost predicate Sound(e: Env, meta: Meta, p: Pkt)
    requires Readable(e) && p < |e.rss|
  {
    (meta.act == TONF ==> Reaches(e, meta.dst, p)) &&
    (meta.act == NEXT ==> Passable(e, Advance(e.chains[p], meta), p))
  }

  /** The same after the look-up of the next entry. */
  ghost predicate Passable(e: Env, meta: Meta, p: Pkt)
    requires Readable(e)
  {
    (meta.act == TONF ==> Reaches(e, meta.dst, p)) && (meta.act == OUT && meta.dst < |e.portIds| ==> e.mgrNf)
  }

  /** The case of TONF: a packet returned by instance i goes to an instance of type y. */
  function ToInstance(e: Env, n: Net, p: Pkt, i: nat, y: nat): (r: Net)
    requires Readable(e) && Ready(e, n) && Reaches(e, y, p) && i < MAX_NFS
    ensures Ready(e, r)
  {
    var stats := n.nfs[i].stats;
    EnqueueBq(e, CountAct(n, i, stats.(actTonf := stats.actTonf + 1)), y, p)
  }

  /** The switch of d2sc_pkt_process_next_act for a packet returned by instance i.  A lookup
      that gives neither drop, instance nor port leaves the packet nowhere. */
  function Forward(e: Env, n: Net, p: Pkt, i: nat, meta: Meta): (r: Net)
    requires Readable(e) && Ready(e, n) && p < |n.metas| && i < MAX_NFS
    requires Passable(e, meta, p)
    ensures Ready(e, r)
  {
    var stats := n.nfs[i].stats;
    if meta.act == DROP then Release(n, [p])
    else if meta.act == TONF then ToInstance(e, n, p, i, meta.dst)
    else if meta.act == OUT then EnqueuePort(e, CountAct(n, i, stats.(actOut := stats.actOut + 1)), meta.dst, p)
    else n.(lost := n.lost + [p])
  }

  /** d2sc_pkt_process_next_act */
  function ProcessNextAct(e: Env, n: Net, p: Pkt, i: nat): (r: Net)
    requires Readable(e) && Ready(e, n) && p < |n.metas| && i < MAX_NFS
    requires n.metas[p].act == NEXT && Sound(e, n.metas[p], p)
    ensures Ready(e, r)
  {
    var meta := Advance(e.chains[p], n.metas[p]);
    Forward(e, SetMeta(n, p, meta), p, i, meta)
  }

  function PutInTx(n: Net, p: Pkt): Net {
    n.(txBuf := n.txBuf + [p], returned := n.returned + [p])
  }

  /** The case of NEXT. */
  function ToNext(e: Env, n: Net, p: Pkt, i: nat): (r: Net)
    requires Readable(e) && Ready(e, n) && p < |n.metas| && i < MAX_NFS
    requires n.metas[p].act == NEXT && Sound(e, n.metas[p], p)
    ensures Ready(e, r)
  {
    var stats := n.nfs[i].stats;
    ProcessNextAct(e, CountAct(n, i, stats.(actNext := stats.actNext + 1)), p, i)
  }

  /** A packet returned with OUT: the manager's queues lead to the port, those of an instance to
      its tx ring. */
  function Output(e: Env, n: Net, p: Pkt, i: nat, port: nat): (r: Net)
    requires Ready(e, n) && i < MAX_NFS
    ensures Ready(e, r)
  {
    var stats := n.nfs[i].stats;
    if e.mgrNf then EnqueuePort(e, CountAct(n, i, stats.(actOut := stats.actOut + 1)), port, p)
    else
      var t := PutInTx(n, p);
      if |t.txBuf| == PKT_RD_SIZE then EnqueueTxRing(t, i) else t
  }

  /** One packet of d2sc_pkt_process_tx_batch with a valid action. */
  function TxOne(e: Env, n: Net, p: Pkt, i: nat): (r: Net)
    requires Readable(e) && Ready(e, n) && p < |n.metas| && i < MAX_NFS
    requires n.metas[p].act <= OUT && Sound(e, n.metas[p], p)
    ensures Ready(e, r)
  {
    var meta := n.metas[p];
    if meta.act == DROP then Release(n, [p])
    else if meta.act == NEXT then ToNext(e, n, p, i)
    else if meta.act == TONF then ToInstance(e, n, p, i, meta.dst)
    else Output(e, n, p, i, meta.dst)
  }

  /** The batch comes to its k-th packet: no packet before it has an invalid action. */
  ghost predicate Reached(metas: seq<Meta>, pkts: seq<Pkt>, k: nat)
    requires k <= |pkts| && forall j :: 0 <= j < |pkts| ==> pkts[j] < |metas|
  {
    forall j :: 0 <= j < k ==> metas[pkts[j]].act <= OUT
  }

  /** Every packet the batch comes to has sound meta data. */
  ghost predicate SoundBatch(e: Env, metas: seq<Meta>, pkts: seq<Pkt>)
    requires Readable(e) && |metas| == |e.rss|
  {
    (forall k :: 0 <= k < |pkts| ==> pkts[k] < |metas|) &&
    forall k: nat :: k < |pkts| && Reached(metas, pkts, k) ==> Sound(e, metas[pkts[k]], pkts[k])
  }

  lemma FirstSound(e: Env, metas: seq<Meta>, pkts: seq<Pkt>)
    requires Readable(e) && |metas| == |e.rss| && SoundBatch(e, metas, pkts) && pkts != []
    ensures pkts[0] < |metas| && Sound(e, metas[pkts[0]], pkts[0])
  {
    hide Sound;
    assert Reached(metas, pkts, 0);
  }

  lemma RestSound(e: Env, metas: seq<Meta>, pkts: seq<Pkt>)
    requires Readable(e) && |metas| == |e.rss| && SoundBatch(e, metas, pkts) && pkts != [] && metas[pkts[0]].act <= OUT
    ensures SoundBatch(e, metas, pkts[1..])
  {
    hide Sound;
    var rest := pkts[1..];
    forall k: nat | k < |rest| && Reached(metas, rest, k)
      ensures Sound(e, metas[rest[k]], rest[k])
    {
      assert forall j :: 1 <= j < k + 1 ==> pkts[j] == rest[j - 1];
      assert Reached(metas, pkts, k + 1);
    }
  }

  /** Only the meta data of the packets in the batch matter. */
  lemma SameSound(e: Env, metas: seq<Meta>, now: seq<Meta>, pkts: seq<Pkt>)
    requires Readable(e) && |metas| == |e.rss| == |now| && SoundBatch(e, metas, pkts)
    requires forall k :: 0 <= k < |pkts| ==> now[pkts[k]] == metas[pkts[k]]
    ensures SoundBatch(e, now, pkts)
  {
    hide Sound;
    forall k: nat | k < |pkts| && Reached(now, pkts, k)
      ensures Sound(e, now[pkts[k]], pkts[k])
    {
      assert Reached(metas, pkts, k);
    }
  }

  /** Distinct packets of the pool, with sound meta data as far as the batch goes. */
  ghost predicate BatchOk(e: Env, metas: seq<Meta>, pkts: seq<Pkt>)
    requires Readable(e) && |metas| == |e.rss|
  {
    SoundBatch(e, metas, pkts) && forall j, k :: 0 <= j < k < |pkts| ==> pkts[j] != pkts[k]
  }

  /** The packet's own meta data is all the meta data a step can change. */
  lemma TxOneMetas(e: Env, n: Net, p: Pkt, i: nat)
    requires Readable(e) && Ready(e, n) && p < |n.metas| && i < MAX_NFS
    requires n.metas[p].act <= OUT && Sound(e, n.metas[p], p)
    ensures var r := TxOne(e, n, p, i);
            |r.metas| == |n.metas| && forall q :: 0 <= q < |n.metas| && q != p ==> r.metas[q] == n.metas[q]
  {
    hide Readable, Ready, Target;
  }

  lemma RestOk(e: Env, metas: seq<Meta>, now: seq<Meta>, pkts: seq<Pkt>)
    requires Readable(e) && |metas| == |e.rss| == |now| && pkts != [] && BatchOk(e, metas, pkts)
    requires metas[pkts[0]].act <= OUT
    requires forall q :: 0 <= q < |metas| && q != pkts[0] ==> now[q] == metas[q]
    ensures BatchOk(e, now, pkts[1..])
  {
    hide SoundBatch;
    BatchPackets(e, metas, pkts);
    RestSound(e, metas, pkts);
    SameSound(e, metas, now, pkts[1..]);
  }

  lemma BatchPackets(e: Env, metas: seq<Meta>, pkts: seq<Pkt>)
    requires Readable(e) && |metas| == |e.rss| && BatchOk(e, metas, pkts)
    ensures forall k :: 0 <= k < |pkts| ==> pkts[k] < |metas|
    ensures pkts != [] ==> Sound(e, metas[pkts[0]], pkts[0])
  {
    if pkts != [] {
      FirstSound(e, metas, pkts);
    }
  }

  function Stamped(n: Net, p: Pkt, i: nat): Net
    requires p < |n.metas|
  {
    SetMeta(n, p, n.metas[p].(src := i))
  }

  /** d2sc_pkt_process_tx_batch: an invalid action ends the batch, and the packets after it
      are left nowhere. */
  function TxBatch(e: Env, n: Net, pkts: seq<Pkt>, i: nat): (r: Net)
    requires Readable(e) && Ready(e, n) && BatchOk(e, n.metas, pkts) && i < MAX_NFS
    ensures Ready(e, r)
    decreases |pkts|
  {
    BatchPackets(e, n.metas, pkts);
    if pkts == [] then n
    else
      var p := pkts[0];
      var t := Stamped(n, p, i);
      if t.metas[p].act > OUT then Release(t, [p]).(lost := t.lost + pkts[1..])
      else
        TxOneMetas(e, t, p, i);
        RestOk(e, n.metas, TxOne(e, t, p, i).metas, pkts);
        TxBatch(e, TxOne(e, t, p, i), pkts[1..], i)
  }
}

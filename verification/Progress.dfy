/**
 What each call gets done: how much it takes from a ring, what its flushes send on, what it counts,
 and what it writes into the meta data of the packets.
 */
module Progress {
  import opened Registry
  import opened PacketPath
  import opened Delivery
  import opened Rings
  import opened PacketCalls
  import Accounts
  import SC = ServiceChain

  // ---------- Flushes ----------

  /** The flush of the first k listed ports empties the buffers of these ports into the NIC, which sends
      all of it when it takes every burst, and touches no other port. */
  lemma {:induction false} FlushedPortsSend(e: Env, n: Net, k: nat, port: nat)
    requires Ready(e, n) && k <= |e.portIds| && port < |n.ports| && e.mgrNf
    ensures var r := FlushAllPorts(e, n, k);
            |r.ports| == |r.portBufs| == |n.ports| && (Willing(n.nic) ==> Willing(r.nic)) &&
            if port in e.portIds[..k] then
              r.portBufs[port] == [] && (Willing(n.nic) ==> r.ports[port].sent == n.ports[port].sent + n.portBufs[port]) &&
              r.ports[port].tx - n.ports[port].tx == |r.ports[port].sent| - |n.ports[port].sent| &&
              r.ports[port].tx + r.ports[port].txDrop == n.ports[port].tx + n.ports[port].txDrop + |n.portBufs[port]|
            else r.portBufs[port] == n.portBufs[port] && r.ports[port] == n.ports[port]
  {
    hide FlushPort, Willing;
    if k > 0 {
      FlushedPortsSend(e, n, k - 1, port);
      FlushedPortSends(e, FlushAllPorts(e, n, k - 1), e.portIds[k - 1], port);
      assert e.portIds[..k] == e.portIds[..k - 1] + [e.portIds[k - 1]];
    }
  }

  lemma FlushedPortSends(e: Env, n: Net, id: nat, port: nat)
    requires Ready(e, n) && id < |n.ports| && port < |n.ports| && e.mgrNf
    ensures var r := FlushPort(e, n, id);
            |r.ports| == |r.portBufs| == |n.ports| && (Willing(n.nic) ==> Willing(r.nic)) &&
            if port == id then
              r.portBufs[port] == [] && (Willing(n.nic) ==> r.ports[port].sent == n.ports[port].sent + n.portBufs[port]) &&
              r.ports[port].tx - n.ports[port].tx == |r.ports[port].sent| - |n.ports[port].sent| &&
              r.ports[port].tx + r.ports[port].txDrop == n.ports[port].tx + n.ports[port].txDrop + |n.portBufs[port]|
            else r.portBufs[port] == n.portBufs[port] && r.ports[port] == n.ports[port]
  {
    var b := n.portBufs[id];
    assert b[..|b|] == b && n.ports[port].sent + [] == n.ports[port].sent;
  }

  /** One burst to a port: the NIC takes as many packets as it is ready to take, from the head, and the
      rest is freed; a queue of an instance has no ports. */
  lemma BurstTaken(e: Env, n: Net, port: nat)
    requires Ready(e, n) && port < |n.ports|
    ensures var r, b, q := FlushPort(e, n, port), n.portBufs[port], n.ports[port];
            if !e.mgrNf || b == [] then r == n
            else
              var k := if n.nic == [] || n.nic[0] > |b| then |b| else n.nic[0];
              r.portBufs[port] == [] && r.ports[port] == Port(q.tx + k, q.txDrop + |b| - k, q.sent + b[..k]) &&
              r.freed == n.freed + b[k..]
  {
  }

  /** The hand-over offers the whole buffer to the tx ring. */
  lemma HandedOver(n: Net, i: nat)
    requires i < |n.nfs|
    ensures var r := EnqueueTxRing(n, i);
            r.txBuf == [] && |r.nfs| == |n.nfs| && r.nfs[i].txQ == Offered(n.nfs[i].txQ, n.txBuf) &&
            r.nfs[i].stats.tx - n.nfs[i].stats.tx == |r.nfs[i].txQ| - |n.nfs[i].txQ| &&
            r.nfs[i].stats.tx + r.nfs[i].stats.txDrop == n.nfs[i].stats.tx + n.nfs[i].stats.txDrop + |n.txBuf|
  {
    assert n.nfs[i].txQ + [] == n.nfs[i].txQ;
  }

  // ---------- Turns ----------

  /** A batch that is received while some instance is ready reaches the rings: a running instance is left
      with no packet in the thread's buffer and, when all fit, with the buffer's packets and those for it
      at the end of its ring.  While none is ready the batch is freed and nothing else happens. */
  lemma ReceiveArrives(e: Env, n: Net, pkts: seq<Pkt>, i: nat)
    requires CallOk(e, n, Receive(pkts)) && i < MAX_NFS
    ensures e.s.numNfs == 0 ==> Do(e, n, Receive(pkts)) == n.(freed := n.freed + pkts)
    ensures e.s.numNfs > 0 ==>
              var r, s := Do(e, n, Receive(pkts)), n.bufs[i] + Pick(pkts, RxFates(e, pkts), Buffered(i));
              if !Valid(e.s, i) then r.bufs[i] == n.bufs[i] && r.nfs[i].rxQ == n.nfs[i].rxQ
              else r.bufs[i] == [] && r.nfs[i].rxQ == Offered(Poured(n.nfs[i].rxQ, s), Waiting(s)) &&
                   (|n.nfs[i].rxQ| + |s| <= RING_ROOM ==>
                      r.nfs[i].rxQ == n.nfs[i].rxQ + s && r.nfs[i].stats.rx == n.nfs[i].stats.rx + |s|)
  {
    hide RxBatch, Poured, Waiting, Offered, Pick, RxFates, ArrivalsOk;
    if e.s.numNfs > 0 {
      RxBatchFills(e, n, pkts, i);
    }
  }

  /** The flush between turns sends on what the buffers for running instances hold. */
  lemma FlushArrives(e: Env, n: Net, i: nat)
    requires CallOk(e, n, FlushBqs) && i < MAX_NFS
    ensures var r := Do(e, n, FlushBqs);
            if !Valid(e.s, i) then r.bufs[i] == n.bufs[i] && r.nfs[i] == n.nfs[i]
            else r.bufs[i] == [] && r.nfs[i].rxQ == Offered(n.nfs[i].rxQ, n.bufs[i])
  {
    hide FlushAllBqs, Offered;
    FlushedBqs(e, n, MAX_NFS, i);
  }

  /** A ring without its first 32 packets, or all of them when there are no more. */
  function Behind(q: seq<Pkt>): seq<Pkt> {
    if |q| <= PKT_RD_SIZE then [] else q[PKT_RD_SIZE..]
  }

  /** A TX thread takes up to 32 packets from the tx ring of a running instance and puts none back. */
  lemma TxTurnTakes(e: Env, n: Net, i: nat)
    requires CallOk(e, n, TxTurn(i)) && e.mgrNf
    ensures Do(e, n, TxTurn(i)).nfs[i].txQ == if Valid(e.s, i) then Behind(n.nfs[i].txQ) else n.nfs[i].txQ
  {
    hide TxBatch, BatchOk, Poured, Pick, TxFates, Burst;
    if Valid(e.s, i) {
      TakeTxReady(e, n, i);
      var m := TakeTx(n, i);
      OutOfManager(e, m, TxTaken(n, i), i);
      BurstIs(n.nfs[i].txQ);
    }
  }

  lemma BurstIs(q: seq<Pkt>)
    ensures q[Burst(q)..] == Behind(q) && q[..Burst(q)] + Behind(q) == q
  {
  }

  lemma OutOfManager(e: Env, n: Net, pkts: seq<Pkt>, i: nat)
    requires Readable(e) && Ready(e, n) && BatchOk(e, n.metas, pkts) && i < MAX_NFS && e.mgrNf
    ensures TxBatch(e, n, pkts, i).nfs[i].txQ == n.nfs[i].txQ
  {
    hide Readable, TxBatch, TxFates, Poured, SoundBatch, Pick;
    WaySelf(e, n, i);
    TxBatchWay(n, e, n, pkts, i);
    TracksSelf(n);
    TxBatchDelivers(n, e, n, pkts, i);
    Accounts.NoTxRing(e, n.metas, pkts);
    PickEmpty(pkts, TxFates(e, n.metas, pkts), ToTxRing);
    var r := TxBatch(e, n, pkts, i);
    assert r.returned == n.returned;
    assert n.txBuf + r.returned[|n.returned|..] == n.txBuf;
    NothingPoured(n.nfs[i].txQ, n.txBuf);
  }

  /** An instance takes up to 32 packets from its receive ring; what it sends to itself joins the end. */
  lemma NfTurnTakes(e: Env, n: Net, i: nat, metas: seq<SC.Meta>)
    requires CallOk(e, n, NfTurn(i, metas))
    ensures var own := n.bufs[i] + Pick(RxTaken(n, i), TxFates(e, metas, RxTaken(n, i)), Buffered(i));
            Do(e, n, NfTurn(i, metas)).nfs[i].rxQ == Poured(Behind(n.nfs[i].rxQ), own)
  {
    hide Readable, TxBatch, SoundBatch, Poured, Pick, TxFates, Burst;
    TakeRxReady(e, n, i, metas);
    TxBatchFills(e, TakeRx(n, i, metas), RxTaken(n, i), i, i);
    BurstIs(n.nfs[i].rxQ);
  }

  // ---------- What a transmit batch counts ----------

  /** What one packet adds to act_tonf, act_out and act_next of the instance it comes from. */
  datatype Marks = Marks(tonf: nat, out: nat, next: nat)

  /** A packet counts under its own action; one with NEXT also under that of its next entry; and OUT
      counts only on the queues of the manager or as a next entry. */
  function MarksOf(e: Env, meta: SC.Meta, p: Pkt): Marks
    requires Readable(e) && p < |e.rss|
  {
    var c, viaNext := e.chains[p], meta.act == SC.NEXT;
    var act := if !viaNext then meta.act else if meta.scIndex < c.scLen then c.entries[meta.scIndex + 1].act else SC.DROP;
    Marks(if act == SC.TONF then 1 else 0, if act == SC.OUT && (viaNext || e.mgrNf) then 1 else 0, if viaNext then 1 else 0)
  }

  function Plus(a: Marks, b: Marks): Marks {
    Marks(a.tonf + b.tonf, a.out + b.out, a.next + b.next)
  }

  /** The marks of all packets a batch comes to. */
  function MarksOfBatch(e: Env, metas: seq<SC.Meta>, pkts: seq<Pkt>): Marks
    requires Readable(e) && |metas| == |e.rss| && forall k :: 0 <= k < |pkts| ==> pkts[k] < |metas|
  {
    if pkts == [] || metas[pkts[0]].act > SC.OUT then Marks(0, 0, 0)
    else Plus(MarksOf(e, metas[pkts[0]], pkts[0]), MarksOfBatch(e, metas, pkts[1..]))
  }

  /** The counters of instance i have grown by the marks, those of the others are as they were. */
  ghost predicate Marked(n: Net, r: Net, i: nat, marks: Marks) {
    |r.nfs| == |n.nfs| && forall j :: 0 <= j < |n.nfs| ==>
      var a, b := n.nfs[j].stats, r.nfs[j].stats;
      var more := if j == i then marks else Marks(0, 0, 0);
      b.actTonf == a.actTonf + more.tonf && b.actOut == a.actOut + more.out && b.actNext == a.actNext + more.next
  }

  lemma EnqueueBqMarks(e: Env, n: Net, y: nat, p: Pkt, i: nat)
    requires Readable(e) && Ready(e, n) && Reaches(e, y, p)
    ensures Marked(n, EnqueueBq(e, n, y, p), i, Marks(0, 0, 0))
  {
    hide Readable, Reaches, Target;
  }

  lemma EnqueuePortMarks(e: Env, n: Net, port: nat, p: Pkt, i: nat)
    requires Ready(e, n) && (port < |e.portIds| ==> e.mgrNf)
    ensures Marked(n, EnqueuePort(e, n, port, p), i, Marks(0, 0, 0))
  {
  }

  lemma HandOverMarks(n: Net, i: nat)
    requires i < |n.nfs|
    ensures Marked(n, EnqueueTxRing(n, i), i, Marks(0, 0, 0))
  {
  }

  lemma ForwardMarks(e: Env, n: Net, p: Pkt, i: nat, meta: SC.Meta)
    requires Readable(e) && Ready(e, n) && p < |n.metas| && i < MAX_NFS && Passable(e, meta, p)
    ensures Marked(n, Forward(e, n, p, i, meta), i,
                   Marks(if meta.act == SC.TONF then 1 else 0, if meta.act == SC.OUT then 1 else 0, 0))
  {
    hide Readable, Reaches, EnqueueBq, FlushPort;
    if meta.act == SC.TONF {
      EnqueueBqMarks(e, CountAct(n, i, n.nfs[i].stats.(actTonf := n.nfs[i].stats.actTonf + 1)), meta.dst, p, i);
    } else if meta.act == SC.OUT {
      EnqueuePortMarks(e, CountAct(n, i, n.nfs[i].stats.(actOut := n.nfs[i].stats.actOut + 1)), meta.dst, p, i);
    }
  }

  lemma MarksAre(e: Env, meta: SC.Meta, p: Pkt)
    requires Readable(e) && p < |e.rss|
    ensures MarksOf(e, meta, p) ==
            if meta.act == SC.NEXT then
              var next := SC.Advance(e.chains[p], meta);
              Marks(if next.act == SC.TONF then 1 else 0, if next.act == SC.OUT then 1 else 0, 1)
            else Marks(if meta.act == SC.TONF then 1 else 0, if meta.act == SC.OUT && e.mgrNf then 1 else 0, 0)
  {
  }

  lemma TxOneMarks(e: Env, n: Net, p: Pkt, i: nat)
    requires Readable(e) && Ready(e, n) && p < |n.metas| && i < MAX_NFS
    requires n.metas[p].act <= SC.OUT && Sound(e, n.metas[p], p)
    ensures Marked(n, TxOne(e, n, p, i), i, MarksOf(e, n.metas[p], p))
  {
    hide Reaches, EnqueueBq, EnqueuePort, Forward, EnqueueTxRing, MarksOf, SC.Advance;
    var meta, stats := n.metas[p], n.nfs[i].stats;
    MarksAre(e, meta, p);
    if meta.act == SC.NEXT {
      var u := CountAct(n, i, stats.(actNext := stats.actNext + 1));
      var next := SC.Advance(e.chains[p], meta);
      ForwardMarks(e, SetMeta(u, p, next), p, i, next);
    } else if meta.act == SC.TONF {
      EnqueueBqMarks(e, CountAct(n, i, stats.(actTonf := stats.actTonf + 1)), meta.dst, p, i);
    } else if meta.act == SC.OUT && e.mgrNf {
      EnqueuePortMarks(e, CountAct(n, i, stats.(actOut := stats.actOut + 1)), meta.dst, p, i);
    } else if meta.act == SC.OUT {
      HandOverMarks(PutInTx(n, p), i);
    }
  }

  lemma {:induction false} MarksOfChanged(e: Env, metas: seq<SC.Meta>, now: seq<SC.Meta>, pkts: seq<Pkt>)
    requires Readable(e) && |metas| == |e.rss| == |now| && forall k :: 0 <= k < |pkts| ==> pkts[k] < |metas|
    requires forall k :: 0 <= k < |pkts| ==> now[pkts[k]] == metas[pkts[k]]
    ensures MarksOfBatch(e, now, pkts) == MarksOfBatch(e, metas, pkts)
  {
    hide MarksOf, Readable;
    if pkts != [] && metas[pkts[0]].act <= SC.OUT {
      assert forall k :: 0 <= k < |pkts[1..]| ==> pkts[1..][k] == pkts[k + 1];
      MarksOfChanged(e, metas, now, pkts[1..]);
    }
  }

  /** A batch counts exactly the packets it comes to, for the instance it comes from. */
  lemma {:induction false} TxBatchMarks(e: Env, n: Net, pkts: seq<Pkt>, i: nat)
    requires Readable(e) && Ready(e, n) && BatchOk(e, n.metas, pkts) && i < MAX_NFS
    requires forall k :: 0 <= k < |pkts| ==> pkts[k] < |n.metas|
    ensures Marked(n, TxBatch(e, n, pkts, i), i, MarksOfBatch(e, n.metas, pkts))
    decreases |pkts|
  {
    hide Readable, TxOne, MarksOf, Sound, SoundBatch;
    if pkts != [] {
      var p := pkts[0];
      BatchPackets(e, n.metas, pkts);
      var t := Stamped(n, p, i);
      if t.metas[p].act <= SC.OUT {
        StampedFate(e, n, p, i);
        var m := TxOne(e, t, p, i);
        TxOneMetas(e, t, p, i);
        RestOk(e, n.metas, m.metas, pkts);
        TxOneMarks(e, t, p, i);
        StampedMarks(e, n.metas[p], p, i);
        TxBatchMarks(e, m, pkts[1..], i);
        MarksOfChanged(e, n.metas, m.metas, pkts[1..]);
      }
    }
  }

  lemma StampedMarks(e: Env, meta: SC.Meta, p: Pkt, i: nat)
    requires Readable(e) && p < |e.rss|
    ensures MarksOf(e, meta.(src := i), p) == MarksOf(e, meta, p)
  {
  }

  // ---------- What a batch writes into the meta data ----------

  /** The meta data of a packet that a transmit batch of instance i has come to: its source, and after
      NEXT the next entry of its chain and the index after it. */
  function Rewritten(e: Env, meta: SC.Meta, p: Pkt, i: nat): SC.Meta
    requires Readable(e) && p < |e.rss|
  {
    var c, at := e.chains[p], meta.scIndex;
    if meta.act != SC.NEXT then SC.Meta(meta.act, meta.dst, i, at)
    else if at < c.scLen then SC.Meta(c.entries[at + 1].act, c.entries[at + 1].dst, i, (at + 1) % 256)
    else SC.Meta(SC.DROP, 0, i, (at + 1) % 256)
  }

  lemma TxOneWrites(e: Env, n: Net, p: Pkt, i: nat)
    requires Readable(e) && Ready(e, n) && p < |n.metas| && i < MAX_NFS
    requires n.metas[p].act <= SC.OUT && Sound(e, n.metas[p], p)
    ensures var r := TxOne(e, n, p, i);
            |r.metas| == |n.metas| && r.metas[p] == Rewritten(e, n.metas[p], p, n.metas[p].src)
  {
    hide Reaches, Target;
  }

  /** A transmit batch rewrites the meta data of the packets it comes to, and no others. */
  lemma {:induction false} TxBatchWrites(e: Env, n: Net, pkts: seq<Pkt>, i: nat, q: Pkt)
    requires Readable(e) && Ready(e, n) && BatchOk(e, n.metas, pkts) && i < MAX_NFS && q < |n.metas|
    requires forall k :: 0 <= k < |pkts| ==> pkts[k] < |n.metas|
    ensures var r := TxBatch(e, n, pkts, i);
            |r.metas| == |n.metas| &&
            r.metas[q] == if exists k: nat :: k < |pkts| && pkts[k] == q && Reached(n.metas, pkts, k)
                          then Rewritten(e, n.metas[q], q, i) else n.metas[q]
    decreases |pkts|
  {
    hide Readable, TxOne, Sound, SoundBatch, Reached, Rewritten;
    if pkts != [] {
      var p := pkts[0];
      BatchPackets(e, n.metas, pkts);
      FirstReached(n.metas, pkts);
      var t := Stamped(n, p, i);
      if t.metas[p].act > SC.OUT {
        OnlyFirst(e, n.metas, pkts, i);
      } else {
        StampedFate(e, n, p, i);
        var m, rest := TxOne(e, t, p, i), pkts[1..];
        TxOneMetas(e, t, p, i);
        TxOneWrites(e, t, p, i);
        StampedWrites(e, n.metas[p], p, i);
        RestOk(e, n.metas, m.metas, pkts);
        TxBatchWrites(e, m, rest, i, q);
        forall k: nat | k < |rest|
          ensures Reached(n.metas, pkts, k + 1) <==> Reached(m.metas, rest, k)
        {
          LaterReached(n.metas, m.metas, pkts, k);
        }
        assert forall k: nat :: 0 < k < |pkts| ==> pkts[k] == rest[k - 1];
        if k: nat :| k < |rest| && rest[k] == q && Reached(m.metas, rest, k) {
          assert pkts[k + 1] == q && Reached(n.metas, pkts, k + 1);
        }
      }
    }
  }

  lemma FirstReached(metas: seq<SC.Meta>, pkts: seq<Pkt>)
    requires pkts != [] && forall j :: 0 <= j < |pkts| ==> pkts[j] < |metas|
    ensures Reached(metas, pkts, 0)
  {
  }

  lemma OnlyFirst(e: Env, metas: seq<SC.Meta>, pkts: seq<Pkt>, i: nat)
    requires Readable(e) && |metas| == |e.rss| && pkts != [] && forall j :: 0 <= j < |pkts| ==> pkts[j] < |metas|
    requires metas[pkts[0]].act > SC.OUT
    ensures forall k: nat :: k < |pkts| && Reached(metas, pkts, k) ==> k == 0
    ensures Rewritten(e, metas[pkts[0]], pkts[0], i) == metas[pkts[0]].(src := i)
  {
  }

  lemma LaterReached(metas: seq<SC.Meta>, now: seq<SC.Meta>, pkts: seq<Pkt>, k: nat)
    requires k < |pkts| - 1 && |now| == |metas| && forall j :: 0 <= j < |pkts| ==> pkts[j] < |metas|
    requires metas[pkts[0]].act <= SC.OUT
    requires forall j :: 0 < j < |pkts| ==> now[pkts[j]] == metas[pkts[j]]
    ensures Reached(metas, pkts, k + 1) <==> Reached(now, pkts[1..], k)
  {
    var rest := pkts[1..];
    assert forall j :: 0 <= j < |rest| ==> rest[j] == pkts[j + 1];
    if Reached(now, rest, k) {
      forall j | 0 <= j < k + 1
        ensures metas[pkts[j]].act <= SC.OUT
      {
        if j > 0 {
          assert now[rest[j - 1]].act <= SC.OUT;
        }
      }
    }
  }

  lemma StampedWrites(e: Env, meta: SC.Meta, p: Pkt, i: nat)
    requires Readable(e) && p < |e.rss|
    ensures Rewritten(e, meta.(src := i), p, i) == Rewritten(e, meta, p, i)
  {
  }

  /** A batch from the NIC writes the first entry of its chain into the meta data of each packet. */
  lemma {:induction false} RxEachWrites(e: Env, n: Net, pkts: seq<Pkt>, q: Pkt)
    requires Readable(e) && Ready(e, n) && ArrivalsOk(e, pkts) && q < |n.metas|
    ensures var r, c := RxEach(e, n, pkts), e.chains[q];
            |r.metas| == |n.metas| &&
            r.metas[q] == if q !in pkts then n.metas[q]
                          else if c.scLen == 0 then SC.Meta(SC.DROP, 0, 0, 1)
                          else SC.Meta(c.entries[1].act, c.entries[1].dst, 0, 1)
    decreases |pkts|
  {
    hide EnqueueBq, Reaches;
    if pkts != [] {
      var p, y := pkts[0], SC.NextDst(e.chains[pkts[0]], 0);
      var t := SetMeta(n, p, Arrived(e, n.metas[p], p));
      EnqueueBqWrites(e, t, y, p);
      RxEachWrites(e, EnqueueBq(e, t, y, p), pkts[1..], q);
    }
  }

  /** and the flush that follows leaves it so. */
  lemma RxBatchWrites(e: Env, n: Net, pkts: seq<Pkt>)
    requires Readable(e) && Ready(e, n) && ArrivalsOk(e, pkts)
    ensures RxBatch(e, n, pkts).metas == RxEach(e, n, pkts).metas
  {
    hide RxEach, ArrivalsOk;
    FlushWritesNothing(e, RxEach(e, n, pkts), MAX_NFS);
  }

  lemma {:induction false} FlushWritesNothing(e: Env, n: Net, k: nat)
    requires Readable(e) && Ready(e, n) && k <= MAX_NFS
    ensures FlushAllBqs(e, n, k).metas == n.metas
  {
    if k > 0 {
      FlushWritesNothing(e, n, k - 1);
    }
  }

  lemma EnqueueBqWrites(e: Env, n: Net, y: nat, p: Pkt)
    requires Readable(e) && Ready(e, n) && Reaches(e, y, p)
    ensures EnqueueBq(e, n, y, p).metas == n.metas
  {
    hide Readable, Reaches, Target;
  }
}

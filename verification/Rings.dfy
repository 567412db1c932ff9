/**
 What rings, buffers and ports hold after a call, exactly: the stream of packets for an instance is
 poured into its ring 32 at a time, each 32 as a whole or not at all, and the rest waits in the
 buffer until a flush.
 */
module Rings {
  import opened Registry
  import opened PacketPath
  import opened Delivery
  import opened Outbound
  import SC = ServiceChain

  // ---------- Pouring ----------

  /** The ring after one burst was offered to it: all of it goes in, or none. */
  function Offered(q: seq<Pkt>, burst: seq<Pkt>): seq<Pkt> {
    if |q| + |burst| <= RING_ROOM then q + burst else q
  }

  /** The ring after a stream was offered to it in bursts of 32. */
  function Poured(q: seq<Pkt>, s: seq<Pkt>): seq<Pkt>
    decreases |s|
  {
    if |s| < PKT_RD_SIZE then q else Poured(Offered(q, s[..PKT_RD_SIZE]), s[PKT_RD_SIZE..])
  }

  /** The end of the stream that does not fill a burst. */
  function Waiting(s: seq<Pkt>): seq<Pkt> {
    s[|s| - |s| % PKT_RD_SIZE..]
  }

  lemma {:induction false} PouredMore(q: seq<Pkt>, s: seq<Pkt>, t: seq<Pkt>)
    requires |s| % PKT_RD_SIZE == 0 && |t| <= PKT_RD_SIZE
    ensures Poured(q, s + t) == if |t| == PKT_RD_SIZE then Offered(Poured(q, s), t) else Poured(q, s)
    decreases |s|
  {
    hide Offered;
    if s == [] {
      assert s + t == t && t[..|t|] == t;
      if |t| == PKT_RD_SIZE {
        assert Poured(q, t) == Poured(Offered(q, t), []);
      }
    } else {
      var head, rest := s[..PKT_RD_SIZE], s[PKT_RD_SIZE..];
      assert (s + t)[..PKT_RD_SIZE] == head && (s + t)[PKT_RD_SIZE..] == rest + t;
      PouredMore(Offered(q, head), rest, t);
    }
  }

  /** One packet more in the stream: the buffer fills up, and a full one is offered to the ring. */
  lemma OneMore(q: seq<Pkt>, s: seq<Pkt>, p: Pkt)
    ensures var b := Waiting(s) + [p];
            if |b| == PKT_RD_SIZE then Waiting(s + [p]) == [] && Poured(q, s + [p]) == Offered(Poured(q, s), b)
            else Waiting(s + [p]) == b && Poured(q, s + [p]) == Poured(q, s)
  {
    hide Offered, Poured;
    var whole, last := s[..|s| - |s| % PKT_RD_SIZE], Waiting(s);
    assert s == whole + last && s + [p] == whole + (last + [p]);
    PouredMore(q, whole, last);
    PouredMore(q, whole, last + [p]);
  }

  /** When the ring has room for the stream and what waits, nothing is lost on the way. */
  lemma {:induction false} PouredFits(q: seq<Pkt>, s: seq<Pkt>)
    requires |q| + |s| <= RING_ROOM
    ensures Poured(q, s) + Waiting(s) == q + s
    decreases |s|
  {
    if |s| >= PKT_RD_SIZE {
      var rest := s[PKT_RD_SIZE..];
      PouredFits(q + s[..PKT_RD_SIZE], rest);
      assert Waiting(rest) == Waiting(s);
      assert q + s[..PKT_RD_SIZE] + rest == q + s;
    }
  }

  lemma {:induction false} PouredGrows(q: seq<Pkt>, s: seq<Pkt>)
    ensures |q| <= |Poured(q, s)| <= |q| + |s| - |Waiting(s)| && q <= Poured(q, s)
    decreases |s|
  {
    if |s| >= PKT_RD_SIZE {
      PouredGrows(Offered(q, s[..PKT_RD_SIZE]), s[PKT_RD_SIZE..]);
    }
  }

  // ---------- The receive ring of an instance ----------

  /** Ring, buffer and statistics, given what was put into the buffer since. */
  ghost predicate PouredAt(q0: Queue, b0: seq<Pkt>, r0: seq<Pkt>, q: Queue, b: seq<Pkt>, r: seq<Pkt>) {
    r0 <= r &&
    var s := b0 + r[|r0|..];
    q.rxQ == Poured(q0.rxQ, s) && b == Waiting(s) &&
    q.stats.rx - q0.stats.rx == |q.rxQ| - |q0.rxQ| &&
    q.stats.rx + q.stats.rxDrop + |b| == q0.stats.rx + q0.stats.rxDrop + |s|
  }

  ghost predicate Pours(n0: Net, n: Net) {
    |n0.nfs| == |n0.bufs| == |n0.routed| == MAX_NFS && |n.nfs| == |n.bufs| == |n.routed| == MAX_NFS &&
    forall i :: 0 <= i < MAX_NFS ==> PouredAt(n0.nfs[i], n0.bufs[i], n0.routed[i], n.nfs[i], n.bufs[i], n.routed[i])
  }

  lemma PoursSelf(e: Env, n: Net)
    requires Ready(e, n)
    ensures Pours(n, n)
  {
    forall i | 0 <= i < MAX_NFS
      ensures PouredAt(n.nfs[i], n.bufs[i], n.routed[i], n.nfs[i], n.bufs[i], n.routed[i])
    {
      assert n.bufs[i] + n.routed[i][|n.routed[i]|..] == n.bufs[i];
    }
  }

  lemma SamePours(n0: Net, n: Net, r: Net)
    requires Pours(n0, n) && SameReceive(n, r)
    ensures Pours(n0, r)
  {
    hide Poured, Waiting;
    forall i | 0 <= i < MAX_NFS
      ensures PouredAt(n0.nfs[i], n0.bufs[i], n0.routed[i], r.nfs[i], r.bufs[i], r.routed[i])
    {
      assert PouredAt(n0.nfs[i], n0.bufs[i], n0.routed[i], n.nfs[i], n.bufs[i], n.routed[i]);
    }
  }

  lemma EnqueueBqPours(n0: Net, e: Env, n: Net, y: nat, p: Pkt)
    requires Readable(e) && Ready(e, n) && Reaches(e, y, p) && Pours(n0, n)
    ensures Pours(n0, EnqueueBq(e, n, y, p))
  {
    hide Readable, Reaches, Target, Poured, Waiting, PouredAt;
    match Target(e, y, p)
    case None => SamePours(n0, n, Release(n, [p]));
    case Some(i) =>
      var r := EnqueueBq(e, n, y, p);
      assert PouredAt(n0.nfs[i], n0.bufs[i], n0.routed[i], n.nfs[i], n.bufs[i], n.routed[i]);
      PutPours(n0.nfs[i], n0.bufs[i], n0.routed[i], n.nfs[i], n.bufs[i], n.routed[i], p);
      forall j | 0 <= j < MAX_NFS
        ensures PouredAt(n0.nfs[j], n0.bufs[j], n0.routed[j], r.nfs[j], r.bufs[j], r.routed[j])
      {
        if j != i {
          assert PouredAt(n0.nfs[j], n0.bufs[j], n0.routed[j], n.nfs[j], n.bufs[j], n.routed[j]);
        }
      }
  }

  lemma PutPours(q0: Queue, b0: seq<Pkt>, r0: seq<Pkt>, q: Queue, b: seq<Pkt>, r: seq<Pkt>, p: Pkt)
    requires PouredAt(q0, b0, r0, q, b, r)
    ensures |b| < PKT_RD_SIZE
    ensures var full, st := b + [p], q.stats;
            if |full| < PKT_RD_SIZE then PouredAt(q0, b0, r0, q, full, r + [p])
            else if |q.rxQ| + PKT_RD_SIZE <= RING_ROOM then
              PouredAt(q0, b0, r0, q.(rxQ := q.rxQ + full, stats := st.(rx := st.rx + |full|)), [], r + [p])
            else PouredAt(q0, b0, r0, q.(stats := st.(rxDrop := st.rxDrop + |full|)), [], r + [p])
  {
    hide Poured;
    var s := b0 + r[|r0|..];
    OneMore(q0.rxQ, s, p);
    assert b0 + (r + [p])[|r0|..] == s + [p];
  }

  /** What one packet of a transmit batch does to the receive side: nothing, or one enqueue. */
  lemma TxOneReceive(e: Env, n: Net, p: Pkt, i: nat) returns (u: Net, y: nat)
    requires Readable(e) && Ready(e, n) && p < |n.metas| && i < MAX_NFS
    requires n.metas[p].act <= SC.OUT && Sound(e, n.metas[p], p)
    ensures var r := TxOne(e, n, p, i);
            SameReceive(n, r) || (Ready(e, u) && Reaches(e, y, p) && SameReceive(n, u) && r == EnqueueBq(e, u, y, p))
  {
    hide Reaches, EnqueueBq, FlushPort, EnqueueTxRing;
    var meta, stats := n.metas[p], n.nfs[i].stats;
    u, y := n, meta.dst;
    if meta.act == SC.NEXT {
      var next := SC.Advance(e.chains[p], meta);
      u := SetMeta(CountAct(n, i, stats.(actNext := stats.actNext + 1)), p, next);
      y := next.dst;
      if next.act == SC.TONF {
        u := CountAct(u, i, u.nfs[i].stats.(actTonf := stats.actTonf + 1));
      } else {
        ForwardReceive(e, u, p, i, next);
      }
    } else if meta.act == SC.TONF {
      u := CountAct(n, i, stats.(actTonf := stats.actTonf + 1));
    } else if meta.act == SC.OUT {
      OutputReceive(e, n, p, i, meta.dst);
    }
  }

  lemma ForwardReceive(e: Env, n: Net, p: Pkt, i: nat, meta: SC.Meta)
    requires Readable(e) && Ready(e, n) && p < |n.metas| && i < MAX_NFS && Passable(e, meta, p) && meta.act != SC.TONF
    ensures SameReceive(n, Forward(e, n, p, i, meta))
  {
    hide Readable, Reaches, FlushPort;
    if meta.act == SC.OUT {
      var u := CountAct(n, i, n.nfs[i].stats.(actOut := n.nfs[i].stats.actOut + 1));
      EnqueuePortReceive(e, u, meta.dst, p);
    }
  }

  lemma EnqueuePortReceive(e: Env, n: Net, port: nat, p: Pkt)
    requires Ready(e, n) && (port < |e.portIds| ==> e.mgrNf)
    ensures SameReceive(n, EnqueuePort(e, n, port, p))
  {
  }

  lemma OutputReceive(e: Env, n: Net, p: Pkt, i: nat, port: nat)
    requires Ready(e, n) && i < MAX_NFS
    ensures SameReceive(n, Output(e, n, p, i, port))
  {
    hide FlushPort, EnqueuePort;
    if e.mgrNf {
      var u := CountAct(n, i, n.nfs[i].stats.(actOut := n.nfs[i].stats.actOut + 1));
      EnqueuePortReceive(e, u, port, p);
    }
  }

  /** A transmit batch pours the packets for each instance into its ring. */
  lemma {:induction false} TxBatchPours(n0: Net, e: Env, n: Net, pkts: seq<Pkt>, i: nat)
    requires Readable(e) && Ready(e, n) && BatchOk(e, n.metas, pkts) && i < MAX_NFS && Pours(n0, n)
    ensures Pours(n0, TxBatch(e, n, pkts, i))
    decreases |pkts|
  {
    hide Readable, Reaches, TxOne, EnqueueBq, PouredAt, Pours;
    if pkts != [] {
      var p := pkts[0];
      BatchPackets(e, n.metas, pkts);
      var t := Stamped(n, p, i);
      SamePours(n0, n, t);
      if t.metas[p].act > SC.OUT {
        SamePours(n0, t, TxBatch(e, n, pkts, i));
      } else {
        var m := TxOne(e, t, p, i);
        var u, y := TxOneReceive(e, t, p, i);
        if SameReceive(t, m) {
          SamePours(n0, t, m);
        } else {
          SamePours(n0, t, u);
          EnqueueBqPours(n0, e, u, y, p);
        }
        TxOneMetas(e, t, p, i);
        RestOk(e, n.metas, m.metas, pkts);
        TxBatchPours(n0, e, m, pkts[1..], i);
      }
    }
  }

  lemma {:induction false} RxEachPours(n0: Net, e: Env, n: Net, pkts: seq<Pkt>)
    requires Readable(e) && Ready(e, n) && ArrivalsOk(e, pkts) && Pours(n0, n)
    ensures Pours(n0, RxEach(e, n, pkts))
    decreases |pkts|
  {
    hide Reaches, EnqueueBq, PouredAt, Pours, Arrived, SC.NextDst;
    if pkts != [] {
      var p, y := pkts[0], SC.NextDst(e.chains[pkts[0]], 0);
      var t := SetMeta(n, p, Arrived(e, n.metas[p], p));
      SamePours(n0, n, t);
      EnqueueBqPours(n0, e, t, y, p);
      RxEachPours(n0, e, EnqueueBq(e, t, y, p), pkts[1..]);
    }
  }

  /** Exactly what a transmit batch leaves for each instance: the packets meant for it follow those in
      the manager's buffer into the ring, 32 at a time, and fewer than 32 wait. */
  lemma TxBatchFills(e: Env, n: Net, pkts: seq<Pkt>, i: nat, j: nat)
    requires Readable(e) && Ready(e, n) && BatchOk(e, n.metas, pkts) && i < MAX_NFS && j < MAX_NFS
    ensures var r, s := TxBatch(e, n, pkts, i), n.bufs[j] + Pick(pkts, TxFates(e, n.metas, pkts), Buffered(j));
            r.nfs[j].rxQ == Poured(n.nfs[j].rxQ, s) && r.bufs[j] == Waiting(s) &&
            r.nfs[j].stats.rx - n.nfs[j].stats.rx == |r.nfs[j].rxQ| - |n.nfs[j].rxQ| &&
            (|n.nfs[j].rxQ| + |s| <= RING_ROOM ==> r.nfs[j].rxQ + r.bufs[j] == n.nfs[j].rxQ + s)
  {
    hide Readable, TxBatch, TxFates, Pick, TracksAt, Poured, Waiting, SoundBatch;
    PoursSelf(e, n);
    TxBatchPours(n, e, n, pkts, i);
    TracksSelf(n);
    TxBatchDelivers(n, e, n, pkts, i);
    var r, more := TxBatch(e, n, pkts, i), Pick(pkts, TxFates(e, n.metas, pkts), Buffered(j));
    assert PouredAt(n.nfs[j], n.bufs[j], n.routed[j], r.nfs[j], r.bufs[j], r.routed[j]);
    assert r.routed[j][|n.routed[j]|..] == more;
    if |n.nfs[j].rxQ| + |n.bufs[j] + more| <= RING_ROOM {
      PouredFits(n.nfs[j].rxQ, n.bufs[j] + more);
    }
  }

  // ---------- Flushes ----------

  /** The buffer of a running instance has been offered to its ring as a whole, and what the ring had
      no room for is counted. */
  ghost predicate FlushedAt(q0: Queue, b0: seq<Pkt>, q: Queue, b: seq<Pkt>) {
    b == [] && q.rxQ == Offered(q0.rxQ, b0) &&
    q.stats.rx == q0.stats.rx + |q.rxQ| - |q0.rxQ| &&
    q.stats.rx + q.stats.rxDrop == q0.stats.rx + q0.stats.rxDrop + |b0|
  }

  /** The flush of all buffers empties those of the running instances, and leaves the others. */
  lemma {:induction false} FlushedBqs(e: Env, n: Net, k: nat, i: nat)
    requires Readable(e) && Ready(e, n) && i < MAX_NFS && k <= MAX_NFS
    ensures var r := FlushAllBqs(e, n, k);
            if i < k && Valid(e.s, i) then FlushedAt(n.nfs[i], n.bufs[i], r.nfs[i], r.bufs[i])
            else r.nfs[i] == n.nfs[i] && r.bufs[i] == n.bufs[i]
  {
    hide FlushNf, Readable;
    if k > 0 {
      FlushedBqs(e, n, k - 1, i);
      FlushedBq(e, FlushAllBqs(e, n, k - 1), k - 1, i);
    }
  }

  lemma FlushedBq(e: Env, n: Net, k: nat, i: nat)
    requires Readable(e) && Ready(e, n) && i < MAX_NFS && k < MAX_NFS
    ensures var r := FlushNf(e, n, k);
            if i == k && Valid(e.s, i) then FlushedAt(n.nfs[i], n.bufs[i], r.nfs[i], r.bufs[i])
            else r.nfs[i] == n.nfs[i] && r.bufs[i] == n.bufs[i]
  {
    hide Readable;
    assert n.nfs[i].rxQ + [] == n.nfs[i].rxQ;
  }

  /** Exactly what a batch from the NIC leaves for each instance: for a running one, the packets for it
      follow those in the buffer into the ring, 32 at a time, and then the rest as a whole, so that
      all arrive when there is room; the buffers of the others are left alone. */
  lemma RxBatchFills(e: Env, n: Net, pkts: seq<Pkt>, i: nat)
    requires Readable(e) && Ready(e, n) && ArrivalsOk(e, pkts) && i < MAX_NFS
    ensures var r, s := RxBatch(e, n, pkts), n.bufs[i] + Pick(pkts, RxFates(e, pkts), Buffered(i));
            if Valid(e.s, i) then
              r.bufs[i] == [] && r.nfs[i].rxQ == Offered(Poured(n.nfs[i].rxQ, s), Waiting(s)) &&
              r.nfs[i].stats.rx - n.nfs[i].stats.rx == |r.nfs[i].rxQ| - |n.nfs[i].rxQ| &&
              (|n.nfs[i].rxQ| + |s| <= RING_ROOM ==> r.nfs[i].rxQ == n.nfs[i].rxQ + s)
            else r.bufs[i] == n.bufs[i] && r.nfs[i].rxQ == n.nfs[i].rxQ
  {
    hide RxEach, RxFates, Pick, TracksAt, Poured, Waiting, FlushAllBqs, ArrivalsOk;
    PoursSelf(e, n);
    RxEachPours(n, e, n, pkts);
    TracksSelf(n);
    RxEachDelivers(n, e, n, pkts);
    var m, more := RxEach(e, n, pkts), Pick(pkts, RxFates(e, pkts), Buffered(i));
    var s := n.bufs[i] + more;
    assert PouredAt(n.nfs[i], n.bufs[i], n.routed[i], m.nfs[i], m.bufs[i], m.routed[i]);
    assert m.routed[i][|n.routed[i]|..] == more;
    FlushedBqs(e, m, MAX_NFS, i);
    if Valid(e.s, i) {
      if |n.nfs[i].rxQ| + |s| <= RING_ROOM {
        PouredFits(n.nfs[i].rxQ, s);
      }
    } else {
      NothingForInvalid(e, pkts, i);
      assert s == n.bufs[i];
      NothingPoured(n.nfs[i].rxQ, s);
    }
  }

  lemma NothingPoured(q: seq<Pkt>, s: seq<Pkt>)
    requires |s| < PKT_RD_SIZE
    ensures Poured(q, s) == q && Waiting(s) == s
  {
  }

  lemma {:induction false} NothingForInvalid(e: Env, pkts: seq<Pkt>, i: nat)
    requires Readable(e) && ArrivalsOk(e, pkts) && i < MAX_NFS && !Valid(e.s, i)
    ensures Pick(pkts, RxFates(e, pkts), Buffered(i)) == []
  {
    hide Reaches, Target;
    if pkts != [] {
      NothingForInvalid(e, pkts[1..], i);
      assert RxFates(e, pkts)[1..] == RxFates(e, pkts[1..]);
    }
  }

  // ---------- The way out ----------

  /** The buffer for the tx ring of the instance at work. */
  ghost predicate PouredTx(n0: Net, n: Net, i: nat) {
    i < |n0.nfs| == |n.nfs| && n0.returned <= n.returned &&
    var q0, q, s := n0.nfs[i], n.nfs[i], n0.txBuf + n.returned[|n0.returned|..];
    q.txQ == Poured(q0.txQ, s) && n.txBuf == Waiting(s) &&
    q.stats.tx - q0.stats.tx == |q.txQ| - |q0.txQ| &&
    q.stats.tx + q.stats.txDrop + |n.txBuf| == q0.stats.tx + q0.stats.txDrop + |s| &&
    forall j :: 0 <= j < |n.nfs| && j != i ==> SameRing(n0.nfs[j], n.nfs[j])
  }

  /** The NIC takes the whole of every burst that comes. */
  ghost predicate Willing(nic: seq<nat>) {
    forall k :: 0 <= k < |nic| ==> nic[k] >= PKT_RD_SIZE
  }

  /** The buffer for a port keeps what does not fill a burst, and a willing NIC sends the rest. */
  ghost predicate PouredOut(q0: Port, b0: seq<Pkt>, r0: seq<Pkt>, q: Port, b: seq<Pkt>, r: seq<Pkt>, willing: bool) {
    r0 <= r &&
    var s := b0 + r[|r0|..];
    b == Waiting(s) && q.tx + q.txDrop + |b| == q0.tx + q0.txDrop + |s| &&
    (willing ==> q.sent + b == q0.sent + s && q.txDrop == q0.txDrop)
  }

  ghost predicate PortsPour(n0: Net, n: Net) {
    |n0.ports| == |n0.portBufs| == |n0.posted| == |n.ports| == |n.portBufs| == |n.posted| &&
    (Willing(n0.nic) ==> Willing(n.nic)) &&
    forall k :: 0 <= k < |n0.ports| ==>
      PouredOut(n0.ports[k], n0.portBufs[k], n0.posted[k], n.ports[k], n.portBufs[k], n.posted[k], Willing(n0.nic))
  }

  /** The way out is as it was. */
  ghost predicate SameWay(n: Net, r: Net) {
    SameOut(n, r) && r.nic == n.nic
  }

  lemma WaySelf(e: Env, n: Net, i: nat)
    requires Ready(e, n) && i < MAX_NFS
    ensures PouredTx(n, n, i) && PortsPour(n, n)
  {
    assert n.txBuf + n.returned[|n.returned|..] == n.txBuf;
    forall k | 0 <= k < |n.ports|
      ensures PouredOut(n.ports[k], n.portBufs[k], n.posted[k], n.ports[k], n.portBufs[k], n.posted[k], Willing(n.nic))
    {
      assert n.portBufs[k] + n.posted[k][|n.posted[k]|..] == n.portBufs[k];
    }
  }

  lemma SameWayPours(n0: Net, n: Net, r: Net, i: nat)
    requires PouredTx(n0, n, i) && PortsPour(n0, n) && SameWay(n, r)
    ensures PouredTx(n0, r, i) && PortsPour(n0, r)
  {
    hide Poured, Waiting, PouredOut;
    assert SameRing(n.nfs[i], r.nfs[i]);
    forall j | 0 <= j < |r.nfs| && j != i
      ensures SameRing(n0.nfs[j], r.nfs[j])
    {
      assert SameRing(n.nfs[j], r.nfs[j]);
    }
  }

  lemma EnqueuePortPours(n0: Net, e: Env, n: Net, port: nat, p: Pkt, i: nat)
    requires Ready(e, n) && (port < |e.portIds| ==> e.mgrNf) && PouredTx(n0, n, i) && PortsPour(n0, n)
    ensures var r := EnqueuePort(e, n, port, p); PouredTx(n0, r, i) && PortsPour(n0, r)
  {
    hide Poured, Waiting, PouredOut, Taken;
    var r := EnqueuePort(e, n, port, p);
    if port < |e.portIds| {
      assert PouredOut(n0.ports[port], n0.portBufs[port], n0.posted[port], n.ports[port], n.portBufs[port], n.posted[port], Willing(n0.nic));
      PostPours(n0, n, port, p);
      forall k | 0 <= k < |n0.ports|
        ensures PouredOut(n0.ports[k], n0.portBufs[k], n0.posted[k], r.ports[k], r.portBufs[k], r.posted[k], Willing(n0.nic))
      {
        if k != port {
          assert PouredOut(n0.ports[k], n0.portBufs[k], n0.posted[k], n.ports[k], n.portBufs[k], n.posted[k], Willing(n0.nic));
        }
      }
    }
  }

  lemma PostPours(n0: Net, n: Net, port: nat, p: Pkt)
    requires PortsPour(n0, n) && port < |n0.ports|
    ensures var full, q, r := n.portBufs[port] + [p], n.ports[port], n.posted[port] + [p];
            var k := Taken(n.nic, |full|);
            |full| <= PKT_RD_SIZE &&
            if |full| < PKT_RD_SIZE then
              PouredOut(n0.ports[port], n0.portBufs[port], n0.posted[port], q, full, r, Willing(n0.nic))
            else
              PouredOut(n0.ports[port], n0.portBufs[port], n0.posted[port],
                        Port(q.tx + k, q.txDrop + (|full| - k), q.sent + full[..k]), [], r, Willing(n0.nic))
  {
    hide Poured;
    var b0, r0, r := n0.portBufs[port], n0.posted[port], n.posted[port];
    assert PouredOut(n0.ports[port], b0, r0, n.ports[port], n.portBufs[port], r, Willing(n0.nic));
    var s := b0 + r[|r0|..];
    OneMore([], s, p);
    assert b0 + (r + [p])[|r0|..] == s + [p];
    var full, q := n.portBufs[port] + [p], n.ports[port];
    assert (q.sent + n.portBufs[port]) + [p] == q.sent + full;
    assert (n0.ports[port].sent + s) + [p] == n0.ports[port].sent + (s + [p]);
    assert full[..|full|] == full;
  }

  /** A packet returned with OUT on the queue of an instance. */
  function ToTx(n: Net, p: Pkt, i: nat): Net
    requires i < |n.nfs|
  {
    var t := PutInTx(n, p);
    if |t.txBuf| == PKT_RD_SIZE then EnqueueTxRing(t, i) else t
  }

  lemma ToTxPours(n0: Net, n: Net, p: Pkt, i: nat)
    requires PouredTx(n0, n, i) && PortsPour(n0, n)
    ensures var r := ToTx(n, p, i); PouredTx(n0, r, i) && PortsPour(n0, r)
  {
    hide Poured, PouredOut;
    var s := n0.txBuf + n.returned[|n0.returned|..];
    OneMore(n0.nfs[i].txQ, s, p);
    assert n0.txBuf + (n.returned + [p])[|n0.returned|..] == s + [p];
  }

  /** What one packet of a transmit batch does to the way out: nothing, or one packet for a port or for
      the tx ring. */
  lemma TxOneOut(e: Env, n: Net, p: Pkt, i: nat) returns (u: Net, port: nat)
    requires Readable(e) && Ready(e, n) && p < |n.metas| && i < MAX_NFS
    requires n.metas[p].act <= SC.OUT && Sound(e, n.metas[p], p)
    ensures var r := TxOne(e, n, p, i);
            SameWay(n, r) ||
            (Ready(e, u) && SameWay(n, u) &&
             (((port < |e.portIds| ==> e.mgrNf) && r == EnqueuePort(e, u, port, p)) || r == ToTx(u, p, i)))
  {
    hide Reaches, EnqueueBq, EnqueuePort, EnqueueTxRing;
    var meta, stats := n.metas[p], n.nfs[i].stats;
    u, port := n, meta.dst;
    if meta.act == SC.NEXT {
      var next := SC.Advance(e.chains[p], meta);
      u := SetMeta(CountAct(n, i, stats.(actNext := stats.actNext + 1)), p, next);
      port := next.dst;
      if next.act == SC.OUT {
        u := CountAct(u, i, u.nfs[i].stats.(actOut := stats.actOut + 1));
      } else if next.act == SC.TONF {
        var v := CountAct(u, i, u.nfs[i].stats.(actTonf := stats.actTonf + 1));
        EnqueueBqWay(e, v, next.dst, p);
      }
    } else if meta.act == SC.TONF {
      var v := CountAct(n, i, stats.(actTonf := stats.actTonf + 1));
      EnqueueBqWay(e, v, meta.dst, p);
    } else if meta.act == SC.OUT && e.mgrNf {
      u := CountAct(n, i, stats.(actOut := stats.actOut + 1));
    }
  }

  lemma EnqueueBqWay(e: Env, n: Net, y: nat, p: Pkt)
    requires Readable(e) && Ready(e, n) && Reaches(e, y, p)
    ensures SameWay(n, EnqueueBq(e, n, y, p))
  {
    hide Readable, Reaches, Target;
  }

  lemma {:induction false} TxBatchWay(n0: Net, e: Env, n: Net, pkts: seq<Pkt>, i: nat)
    requires Readable(e) && Ready(e, n) && BatchOk(e, n.metas, pkts) && i < MAX_NFS
    requires PouredTx(n0, n, i) && PortsPour(n0, n)
    ensures var r := TxBatch(e, n, pkts, i); PouredTx(n0, r, i) && PortsPour(n0, r)
    decreases |pkts|
  {
    hide Readable, Reaches, TxOne, EnqueuePort, ToTx, PouredTx, PortsPour, SameWay;
    if pkts != [] {
      var p := pkts[0];
      BatchPackets(e, n.metas, pkts);
      var t := Stamped(n, p, i);
      SameMeta(n, p, t.metas[p]);
      SameWayPours(n0, n, t, i);
      if t.metas[p].act > SC.OUT {
        SameReleased(t, [p], t.lost + pkts[1..]);
        SameWayPours(n0, t, TxBatch(e, n, pkts, i), i);
      } else {
        var m := TxOne(e, t, p, i);
        TxOneWay(n0, e, t, p, i);
        TxOneMetas(e, t, p, i);
        RestOk(e, n.metas, m.metas, pkts);
        TxBatchWay(n0, e, m, pkts[1..], i);
      }
    }
  }

  lemma SameMeta(n: Net, p: Pkt, meta: SC.Meta)
    requires p < |n.metas|
    ensures SameWay(n, SetMeta(n, p, meta))
  {
  }

  lemma SameReleased(n: Net, ps: seq<Pkt>, lost: seq<Pkt>)
    ensures SameWay(n, Release(n, ps).(lost := lost))
  {
  }

  lemma TxOneWay(n0: Net, e: Env, n: Net, p: Pkt, i: nat)
    requires Readable(e) && Ready(e, n) && p < |n.metas| && i < MAX_NFS
    requires n.metas[p].act <= SC.OUT && Sound(e, n.metas[p], p) && PouredTx(n0, n, i) && PortsPour(n0, n)
    ensures var r := TxOne(e, n, p, i); PouredTx(n0, r, i) && PortsPour(n0, r)
  {
    hide Readable, Reaches, TxOne, EnqueuePort, ToTx, PouredTx, PortsPour, SameWay, Sound;
    var u, port := TxOneOut(e, n, p, i);
    var r := TxOne(e, n, p, i);
    if SameWay(n, r) {
      SameWayPours(n0, n, r, i);
    } else {
      SameWayPours(n0, n, u, i);
      if r == ToTx(u, p, i) {
        ToTxPours(n0, u, p, i);
      } else {
        EnqueuePortPours(n0, e, u, port, p, i);
      }
    }
  }

  /** Exactly what a transmit batch leaves on the way out: packets for the tx ring follow those in the
      buffer into it, 32 at a time; the buffer of each port keeps what does not fill a burst, and a NIC
      that takes every burst has sent all the others in order. */
  lemma TxBatchSends(e: Env, n: Net, pkts: seq<Pkt>, i: nat, k: nat)
    requires Readable(e) && Ready(e, n) && BatchOk(e, n.metas, pkts) && i < MAX_NFS && k < |n.ports|
    ensures var r, fates := TxBatch(e, n, pkts, i), TxFates(e, n.metas, pkts);
            var s, t := n.portBufs[k] + Pick(pkts, fates, ToPort(k)), n.txBuf + Pick(pkts, fates, ToTxRing);
            |r.ports| == |r.portBufs| == |n.ports| && r.portBufs[k] == Waiting(s) &&
            (Willing(n.nic) ==> r.ports[k].sent + r.portBufs[k] == n.ports[k].sent + s && r.ports[k].txDrop == n.ports[k].txDrop) &&
            r.nfs[i].txQ == Poured(n.nfs[i].txQ, t) && r.txBuf == Waiting(t) &&
            r.nfs[i].stats.tx - n.nfs[i].stats.tx == |r.nfs[i].txQ| - |n.nfs[i].txQ|
  {
    hide Readable, TxBatch, TxFates, Pick, TracksAt, Poured, Waiting, SoundBatch;
    WaySelf(e, n, i);
    TxBatchWay(n, e, n, pkts, i);
    TracksSelf(n);
    TxBatchDelivers(n, e, n, pkts, i);
    var r, fates := TxBatch(e, n, pkts, i), TxFates(e, n.metas, pkts);
    assert r.posted[k][|n.posted[k]|..] == Pick(pkts, fates, ToPort(k));
    assert r.returned[|n.returned|..] == Pick(pkts, fates, ToTxRing);
  }
}

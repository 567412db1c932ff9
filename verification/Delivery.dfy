/**
 Where each packet of a batch goes, that packets for an instance stay in order, and that the
 statistics account for each of them.
 */
module Delivery {
  import opened Registry
  import opened Lanes
  import opened PacketPath
  import SC = ServiceChain

  // ---------- Order and statistics of one instance ----------

  /** The lane to the receive ring of an instance; received, dropped and buffered together have
      grown by the packets routed since. */
  ghost predicate TracksAt(q0: Queue, b0: seq<Pkt>, r0: seq<Pkt>, q: Queue, b: seq<Pkt>, r: seq<Pkt>) {
    Lane(q0.rxQ, b0, r0, q.rxQ, b, r) &&
    q.stats.rx + q.stats.rxDrop + |b| + |r0| == q0.stats.rx + q0.stats.rxDrop + |b0| + |r| &&
    q.stats.actDrop == q0.stats.actDrop
  }

  ghost predicate Tracks(n0: Net, n: Net) {
    |n0.nfs| == |n0.bufs| == |n0.routed| == MAX_NFS && |n.nfs| == |n.bufs| == |n.routed| == MAX_NFS &&
    forall i :: 0 <= i < MAX_NFS ==> TracksAt(n0.nfs[i], n0.bufs[i], n0.routed[i], n.nfs[i], n.bufs[i], n.routed[i])
  }

  lemma TracksSelf(n: Net)
    requires |n.nfs| == |n.bufs| == |n.routed| == MAX_NFS
    ensures Tracks(n, n)
  {
    forall i | 0 <= i < MAX_NFS
      ensures TracksAt(n.nfs[i], n.bufs[i], n.routed[i], n.nfs[i], n.bufs[i], n.routed[i])
    {
      LaneSelf(n.nfs[i].rxQ, n.bufs[i], n.routed[i]);
    }
  }

  lemma FlushNfTracks(n0: Net, e: Env, n: Net, i: nat)
    requires Readable(e) && Sized(e, n) && i < MAX_NFS && Tracks(n0, n)
    ensures Tracks(n0, FlushNf(e, n, i))
    ensures SameHistories(n, FlushNf(e, n, i))
  {
    hide Lane, Readable;
    LaneDropped(n0.nfs[i].rxQ, n0.bufs[i], n0.routed[i], n.nfs[i].rxQ, n.bufs[i], n.routed[i]);
  }

  lemma PutInBufferTracks(n0: Net, n: Net, i: nat, p: Pkt)
    requires i < MAX_NFS && Tracks(n0, n)
    ensures Tracks(n0, PutInBuffer(n, i, p))
  {
    hide Lane;
    LanePut(n0.nfs[i].rxQ, n0.bufs[i], n0.routed[i], n.nfs[i].rxQ, n.bufs[i], n.routed[i], p);
  }

  /** The step leaves the receive side of every instance alone. */
  ghost predicate SameReceive(n: Net, r: Net) {
    |r.nfs| == |n.nfs| && r.bufs == n.bufs && r.routed == n.routed &&
    forall i :: 0 <= i < |n.nfs| ==>
      r.nfs[i].rxQ == n.nfs[i].rxQ && r.nfs[i].stats.rx == n.nfs[i].stats.rx &&
      r.nfs[i].stats.rxDrop == n.nfs[i].stats.rxDrop && r.nfs[i].stats.actDrop == n.nfs[i].stats.actDrop
  }

  lemma SameReceiveTracks(n0: Net, n: Net, r: Net)
    requires Tracks(n0, n) && SameReceive(n, r)
    ensures Tracks(n0, r)
  {
    hide Lane;
    forall i | 0 <= i < MAX_NFS
      ensures TracksAt(n0.nfs[i], n0.bufs[i], n0.routed[i], r.nfs[i], r.bufs[i], r.routed[i])
    {
      assert TracksAt(n0.nfs[i], n0.bufs[i], n0.routed[i], n.nfs[i], n.bufs[i], n.routed[i]);
    }
  }

  ghost predicate SameHistories(n: Net, r: Net) {
    r.routed == n.routed && r.posted == n.posted && r.returned == n.returned && r.lost == n.lost
  }

  // ---------- Fates ----------

  /** What a call does with a packet. */
  datatype Fate = Buffered(nf: nat) | Dropped | ToPort(port: nat) | ToTxRing | Forgotten

  function TypeFate(e: Env, y: nat, p: Pkt): Fate
    requires Readable(e) && Reaches(e, y, p)
  {
    match Target(e, y, p)
    case None => Dropped
    case Some(i) => Buffered(i)
  }

  function PortFate(e: Env, port: nat): Fate {
    if port < |e.portIds| then ToPort(port) else Forgotten
  }

  /** A packet with the meta data of the next entry of its chain. */
  function LinkFate(e: Env, meta: SC.Meta, p: Pkt): Fate
    requires Readable(e) && Passable(e, meta, p)
  {
    if meta.act == SC.TONF then TypeFate(e, meta.dst, p)
    else if meta.act == SC.OUT then PortFate(e, meta.dst)
    else if meta.act == SC.DROP then Dropped
    else Forgotten
  }

  /** A returned packet with a valid action. */
  function TxFate(e: Env, meta: SC.Meta, p: Pkt): Fate
    requires Readable(e) && p < |e.rss| && Sound(e, meta, p)
  {
    if meta.act == SC.TONF then TypeFate(e, meta.dst, p)
    else if meta.act == SC.OUT then if e.mgrNf then PortFate(e, meta.dst) else ToTxRing
    else if meta.act == SC.NEXT then LinkFate(e, SC.Advance(e.chains[p], meta), p)
    else Dropped
  }

  /** The fates of a batch of returned packets. */
  function TxFates(e: Env, metas: seq<SC.Meta>, pkts: seq<Pkt>): (r: seq<Fate>)
    requires Readable(e) && |metas| == |e.rss| && SoundBatch(e, metas, pkts)
    ensures |r| == |pkts|
  {
    if pkts == [] then []
    else if metas[pkts[0]].act > SC.OUT then [Dropped] + seq(|pkts| - 1, k => Forgotten)
    else
      FirstSound(e, metas, pkts);
      RestSound(e, metas, pkts);
      [TxFate(e, metas[pkts[0]], pkts[0])] + TxFates(e, metas, pkts[1..])
  }

  function RxFates(e: Env, pkts: seq<Pkt>): (r: seq<Fate>)
    requires Readable(e)
    requires ArrivalsOk(e, pkts)
    ensures |r| == |pkts|
  {
    seq(|pkts|, k requires 0 <= k < |pkts| => TypeFate(e, SC.NextDst(e.chains[pkts[k]], 0), pkts[k]))
  }

  /** The packets with a given fate, in order. */
  function Pick(pkts: seq<Pkt>, fates: seq<Fate>, f: Fate): seq<Pkt>
    requires |pkts| == |fates|
  {
    if pkts == [] then []
    else (if fates[0] == f then [pkts[0]] else []) + Pick(pkts[1..], fates[1..], f)
  }

  lemma {:induction false} PickAll(pkts: seq<Pkt>, f: Fate, g: Fate)
    ensures Pick(pkts, seq(|pkts|, k => f), g) == if f == g then pkts else []
  {
    if pkts != [] {
      PickAll(pkts[1..], f, g);
      assert seq(|pkts|, k => f)[1..] == seq(|pkts| - 1, k => f);
    }
  }

  function Only(f: Fate, wanted: Fate, p: Pkt): seq<Pkt> {
    if f == wanted then [p] else []
  }

  /** The packets added to each history by a step with one packet of fate f. */
  ghost predicate FateKept(n: Net, r: Net, p: Pkt, f: Fate) {
    |r.routed| == |n.routed| == MAX_NFS && |r.posted| == |n.posted| &&
    (forall i: nat :: i < MAX_NFS ==> r.routed[i] == n.routed[i] + Only(f, Buffered(i), p)) &&
    (forall k: nat :: k < |n.posted| ==> r.posted[k] == n.posted[k] + Only(f, ToPort(k), p)) &&
    r.returned == n.returned + Only(f, ToTxRing, p) && r.lost == n.lost + Only(f, Forgotten, p)
  }

  /** The same for a batch. */
  ghost predicate FatesKept(n: Net, r: Net, pkts: seq<Pkt>, fates: seq<Fate>)
    requires |pkts| == |fates|
  {
    |r.routed| == |n.routed| == MAX_NFS && |r.posted| == |n.posted| &&
    (forall i: nat :: i < MAX_NFS ==> r.routed[i] == n.routed[i] + Pick(pkts, fates, Buffered(i))) &&
    (forall k: nat :: k < |n.posted| ==> r.posted[k] == n.posted[k] + Pick(pkts, fates, ToPort(k))) &&
    r.returned == n.returned + Pick(pkts, fates, ToTxRing) && r.lost == n.lost + Pick(pkts, fates, Forgotten)
  }

  lemma FatesThen(n: Net, m: Net, r: Net, pkts: seq<Pkt>, fates: seq<Fate>)
    requires |pkts| == |fates| > 0
    requires FateKept(n, m, pkts[0], fates[0]) && FatesKept(m, r, pkts[1..], fates[1..])
    ensures FatesKept(n, r, pkts, fates)
  {
    hide Pick, Only;
    forall f: Fate
      ensures Pick(pkts, fates, f) == Only(fates[0], f, pkts[0]) + Pick(pkts[1..], fates[1..], f)
    {
      PickNext(pkts, fates, f);
    }
  }

  lemma PickNext(pkts: seq<Pkt>, fates: seq<Fate>, f: Fate)
    requires |pkts| == |fates| > 0
    ensures Pick(pkts, fates, f) == Only(fates[0], f, pkts[0]) + Pick(pkts[1..], fates[1..], f)
  {
  }

  // ---------- One packet ----------

  lemma EnqueueBqDelivers(n0: Net, e: Env, n: Net, y: nat, p: Pkt)
    requires Readable(e) && Ready(e, n) && Reaches(e, y, p) && Tracks(n0, n)
    ensures var r := EnqueueBq(e, n, y, p); Tracks(n0, r) && FateKept(n, r, p, TypeFate(e, y, p))
  {
    hide TracksAt, Readable, Target, FlushNf;
    match Target(e, y, p)
    case None => SameReceiveTracks(n0, n, Release(n, [p]));
    case Some(i) =>
      PutInBufferTracks(n0, n, i, p);
      var t := PutInBuffer(n, i, p);
      FlushNfTracks(n0, e, t, i);
  }

  lemma EnqueuePortDelivers(n0: Net, e: Env, n: Net, port: nat, p: Pkt)
    requires Ready(e, n) && (port < |e.portIds| ==> e.mgrNf) && Tracks(n0, n)
    ensures var r := EnqueuePort(e, n, port, p); Tracks(n0, r) && FateKept(n, r, p, PortFate(e, port))
  {
    SameReceiveTracks(n0, n, EnqueuePort(e, n, port, p));
  }

  lemma ForwardDelivers(n0: Net, e: Env, n: Net, p: Pkt, i: nat, meta: SC.Meta)
    requires Readable(e) && Ready(e, n) && p < |n.metas| && i < MAX_NFS && Tracks(n0, n) && Passable(e, meta, p)
    ensures var r := Forward(e, n, p, i, meta); Tracks(n0, r) && FateKept(n, r, p, LinkFate(e, meta, p))
  {
    hide TracksAt, Reaches, Target, EnqueueBq, EnqueuePort;
    var stats := n.nfs[i].stats;
    if meta.act == SC.TONF {
      var u := CountAct(n, i, stats.(actTonf := stats.actTonf + 1));
      SameReceiveTracks(n0, n, u);
      EnqueueBqDelivers(n0, e, u, meta.dst, p);
    } else if meta.act == SC.OUT {
      var u := CountAct(n, i, stats.(actOut := stats.actOut + 1));
      SameReceiveTracks(n0, n, u);
      EnqueuePortDelivers(n0, e, u, meta.dst, p);
    } else {
      SameReceiveTracks(n0, n, Forward(e, n, p, i, meta));
    }
  }

  lemma ProcessNextActDelivers(n0: Net, e: Env, n: Net, p: Pkt, i: nat)
    requires Readable(e) && Ready(e, n) && p < |n.metas| && i < MAX_NFS && Tracks(n0, n)
    requires n.metas[p].act == SC.NEXT && Sound(e, n.metas[p], p)
    ensures var r := ProcessNextAct(e, n, p, i); Tracks(n0, r) && FateKept(n, r, p, TxFate(e, n.metas[p], p))
  {
    hide TracksAt, Reaches, Forward, LinkFate, SC.Advance;
    var meta := SC.Advance(e.chains[p], n.metas[p]);
    var t := SetMeta(n, p, meta);
    SameReceiveTracks(n0, n, t);
    ForwardDelivers(n0, e, t, p, i, meta);
  }

  lemma OutputDelivers(n0: Net, e: Env, n: Net, p: Pkt, i: nat, port: nat)
    requires Ready(e, n) && i < MAX_NFS && Tracks(n0, n)
    ensures var r := Output(e, n, p, i, port);
            Tracks(n0, r) && FateKept(n, r, p, if e.mgrNf then PortFate(e, port) else ToTxRing)
  {
    hide TracksAt, EnqueuePort;
    if e.mgrNf {
      var stats := n.nfs[i].stats;
      var u := CountAct(n, i, stats.(actOut := stats.actOut + 1));
      SameReceiveTracks(n0, n, u);
      EnqueuePortDelivers(n0, e, u, port, p);
    } else {
      SameReceiveTracks(n0, n, Output(e, n, p, i, port));
    }
  }

  lemma TxOneDelivers(n0: Net, e: Env, n: Net, p: Pkt, i: nat)
    requires Readable(e) && Ready(e, n) && p < |n.metas| && i < MAX_NFS && Tracks(n0, n)
    requires n.metas[p].act <= SC.OUT && Sound(e, n.metas[p], p)
    ensures var r := TxOne(e, n, p, i); Tracks(n0, r) && FateKept(n, r, p, TxFate(e, n.metas[p], p))
  {
    hide TracksAt, Reaches, Target, EnqueueBq, Output, ProcessNextAct;
    var meta, stats := n.metas[p], n.nfs[i].stats;
    if meta.act == SC.NEXT {
      var u := CountAct(n, i, stats.(actNext := stats.actNext + 1));
      SameReceiveTracks(n0, n, u);
      ProcessNextActDelivers(n0, e, u, p, i);
    } else if meta.act == SC.TONF {
      var u := CountAct(n, i, stats.(actTonf := stats.actTonf + 1));
      SameReceiveTracks(n0, n, u);
      EnqueueBqDelivers(n0, e, u, meta.dst, p);
    } else if meta.act == SC.OUT {
      OutputDelivers(n0, e, n, p, i, meta.dst);
    } else {
      SameReceiveTracks(n0, n, TxOne(e, n, p, i));
    }
  }

  // ---------- Batches ----------

  lemma {:induction false} RxEachDelivers(n0: Net, e: Env, n: Net, pkts: seq<Pkt>)
    requires Readable(e) && Ready(e, n) && Tracks(n0, n)
    requires ArrivalsOk(e, pkts)
    ensures var r := RxEach(e, n, pkts); Tracks(n0, r) && FatesKept(n, r, pkts, RxFates(e, pkts))
    decreases |pkts|
  {
    hide TracksAt, Reaches, EnqueueBq, TypeFate, Arrived, SC.NextDst, FatesKept, FateKept;
    if pkts == [] {
      assert FatesKept(n, n, [], []) by { NoFates(n); }
    } else {
      var p := pkts[0];
      var t := SetMeta(n, p, Arrived(e, n.metas[p], p));
      var y := SC.NextDst(e.chains[p], 0);
      SameReceiveTracks(n0, n, t);
      EnqueueBqDelivers(n0, e, t, y, p);
      var m := EnqueueBq(e, t, y, p);
      RxEachDelivers(n0, e, m, pkts[1..]);
      assert RxFates(e, pkts)[1..] == RxFates(e, pkts[1..]);
      MetaFate(n, p, Arrived(e, n.metas[p], p), m, TypeFate(e, y, p));
      FatesThen(n, m, RxEach(e, n, pkts), pkts, RxFates(e, pkts));
    }
  }

  lemma NoFates(n: Net)
    requires |n.routed| == MAX_NFS
    ensures FatesKept(n, n, [], [])
  {
  }

  lemma MetaFate(n: Net, p: Pkt, meta: SC.Meta, m: Net, f: Fate)
    requires p < |n.metas| && FateKept(SetMeta(n, p, meta), m, p, f)
    ensures FateKept(n, m, p, f)
  {
  }

  lemma {:induction false} FlushAllBqsTracks(n0: Net, e: Env, n: Net, k: nat)
    requires Readable(e) && Ready(e, n) && k <= MAX_NFS && Tracks(n0, n)
    ensures var r := FlushAllBqs(e, n, k); Tracks(n0, r) && SameHistories(n, r)
  {
    hide TracksAt, Readable, FlushNf;
    if k > 0 {
      FlushAllBqsTracks(n0, e, n, k - 1);
      FlushNfTracks(n0, e, FlushAllBqs(e, n, k - 1), k - 1);
    }
  }

  /** A batch from the NIC: each instance is sent, in order, exactly the packets whose chain
      and hash select it; none is forgotten. */
  lemma RxBatchDelivers(e: Env, n: Net, pkts: seq<Pkt>)
    requires Readable(e) && Ready(e, n)
    requires ArrivalsOk(e, pkts)
    ensures var r := RxBatch(e, n, pkts);
            Tracks(n, r) && FatesKept(n, r, pkts, RxFates(e, pkts)) && r.lost == n.lost
  {
    hide TracksAt, Readable, RxEach, FlushAllBqs, Pick;
    TracksSelf(n);
    RxEachDelivers(n, e, n, pkts);
    FlushAllBqsTracks(n, e, RxEach(e, n, pkts), MAX_NFS);
    NoneForgotten(e, pkts);
  }

  lemma {:induction false} NoneForgotten(e: Env, pkts: seq<Pkt>)
    requires Readable(e)
    requires ArrivalsOk(e, pkts)
    ensures Pick(pkts, RxFates(e, pkts), Forgotten) == []
  {
    hide Reaches, Target;
    if pkts != [] {
      NoneForgotten(e, pkts[1..]);
      assert RxFates(e, pkts)[1..] == RxFates(e, pkts[1..]);
    }
  }

  lemma {:induction false} FatesOfChanged(e: Env, metas: seq<SC.Meta>, now: seq<SC.Meta>, pkts: seq<Pkt>)
    requires Readable(e) && |metas| == |e.rss| == |now| && SoundBatch(e, metas, pkts)
    requires forall k :: 0 <= k < |pkts| ==> now[pkts[k]] == metas[pkts[k]]
    ensures SoundBatch(e, now, pkts) && TxFates(e, now, pkts) == TxFates(e, metas, pkts)
  {
    hide Readable, TxFate, SoundBatch;
    SameSound(e, metas, now, pkts);
    InPool(e, metas, pkts);
    if pkts != [] && metas[pkts[0]].act <= SC.OUT {
      RestSound(e, metas, pkts);
      FatesOfChanged(e, metas, now, pkts[1..]);
    }
  }

  lemma InPool(e: Env, metas: seq<SC.Meta>, pkts: seq<Pkt>)
    requires Readable(e) && |metas| == |e.rss| && SoundBatch(e, metas, pkts)
    ensures forall k :: 0 <= k < |pkts| ==> pkts[k] < |metas|
  {
  }

  lemma PickOfRest(pkts: seq<Pkt>, f: Fate)
    requires pkts != [] && f != Dropped
    ensures Pick(pkts, [Dropped] + seq(|pkts| - 1, k => Forgotten), f) == if f == Forgotten then pkts[1..] else []
  {
    var rest, fates := pkts[1..], [Dropped] + seq(|pkts| - 1, k => Forgotten);
    assert fates[1..] == seq(|rest|, k => Forgotten);
    PickAll(rest, Forgotten, f);
  }

  /** After an invalid action the packet itself is dropped and the rest is forgotten. */
  lemma RestForgotten(n: Net, pkts: seq<Pkt>)
    requires pkts != [] && |n.routed| == MAX_NFS
    ensures FatesKept(n, Release(n, [pkts[0]]).(lost := n.lost + pkts[1..]), pkts,
                      [Dropped] + seq(|pkts| - 1, k => Forgotten))
  {
    hide Pick;
    PickOfRest(pkts, Forgotten);
    PickOfRest(pkts, ToTxRing);
    forall i: nat | i < MAX_NFS
      ensures Pick(pkts, [Dropped] + seq(|pkts| - 1, k => Forgotten), Buffered(i)) == []
    {
      PickOfRest(pkts, Buffered(i));
    }
    forall k: nat | k < |n.posted|
      ensures Pick(pkts, [Dropped] + seq(|pkts| - 1, k => Forgotten), ToPort(k)) == []
    {
      PickOfRest(pkts, ToPort(k));
    }
  }

  /** A batch from an instance: every packet meets its fate, in order for each instance, and
      exactly the packets that the code forgets are lost. */
  lemma {:induction false} TxBatchDelivers(n0: Net, e: Env, n: Net, pkts: seq<Pkt>, i: nat)
    requires Readable(e) && Ready(e, n) && BatchOk(e, n.metas, pkts) && i < MAX_NFS && Tracks(n0, n)
    ensures var r := TxBatch(e, n, pkts, i);
            Tracks(n0, r) && FatesKept(n, r, pkts, TxFates(e, n.metas, pkts))
    decreases |pkts|
  {
    hide TracksAt, Readable, TxOne, TxFate, Sound, FatesKept, FateKept;
    if pkts == [] {
      NoFates(n);
    } else {
      var p := pkts[0];
      var t := Stamped(n, p, i);
      SameReceiveTracks(n0, n, t);
      if t.metas[p].act > SC.OUT {
        SameReceiveTracks(n0, t, Release(t, [p]).(lost := t.lost + pkts[1..]));
        RestForgotten(t, pkts);
        StampedFates(n, p, i, TxBatch(e, n, pkts, i), pkts, TxFates(e, n.metas, pkts));
      } else {
        StampedFate(e, n, p, i);
        var m := TxOne(e, t, p, i);
        TxOneMetas(e, t, p, i);
        RestOk(e, n.metas, m.metas, pkts);
        TxOneDelivers(n0, e, t, p, i);
        TxBatchDelivers(n0, e, m, pkts[1..], i);
        FatesOfChanged(e, n.metas, m.metas, pkts[1..]);
        FatesThen(t, m, TxBatch(e, n, pkts, i), pkts, TxFates(e, n.metas, pkts));
        StampedFates(n, p, i, TxBatch(e, n, pkts, i), pkts, TxFates(e, n.metas, pkts));
      }
    }
  }

  /** The source stamp does not matter for where a packet goes. */
  lemma StampedFate(e: Env, n: Net, p: Pkt, i: nat)
    requires Readable(e) && |n.metas| == |e.rss| && p < |n.metas| && Sound(e, n.metas[p], p)
    ensures var t := Stamped(n, p, i);
            Sound(e, t.metas[p], p) && TxFate(e, t.metas[p], p) == TxFate(e, n.metas[p], p)
  {
    hide Reaches, Target;
  }

  lemma StampedFates(n: Net, p: Pkt, i: nat, r: Net, pkts: seq<Pkt>, fates: seq<Fate>)
    requires p < |n.metas| && |pkts| == |fates| && FatesKept(Stamped(n, p, i), r, pkts, fates)
    ensures FatesKept(n, r, pkts, fates)
  {
    hide Pick;
  }

  lemma {:induction false} PickEmpty(pkts: seq<Pkt>, fates: seq<Fate>, f: Fate)
    requires |pkts| == |fates|
    ensures Pick(pkts, fates, f) == [] <==> f !in fates
  {
    if pkts != [] {
      PickEmpty(pkts[1..], fates[1..], f);
      assert fates == [fates[0]] + fates[1..];
    }
  }
}

/**
 The union in a buffer queue.  The queues of the manager store a TX thread in it and those of the
 instances a tx buffer, but the code that puts a packet into a port buffer reads the TX thread
 without asking whose queue it works on.
 */
module Unions {
  import opened Registry
  import opened PacketPath
  import opened Losses
  import SC = ServiceChain

  datatype Member = TxThreadMember | TxBufMember

  /** The member the queue stores. */
  function Live(e: Env): Member {
    if e.mgrNf then TxThreadMember else TxBufMember
  }

  /** The members d2sc_pkt_enqueue_port reads: it returns first for a port number out of range. */
  function PortReads(e: Env, port: nat): seq<Member> {
    if port < |e.portIds| then [TxThreadMember] else []
  }

  /** The members one packet of a batch from an instance makes the code read. */
  function PacketReads(e: Env, meta: SC.Meta, p: Pkt): seq<Member>
    requires Readable(e) && p < |e.rss|
  {
    if meta.act == SC.OUT then if e.mgrNf then PortReads(e, meta.dst) else [TxBufMember]
    else if meta.act == SC.NEXT then
      var t := SC.Advance(e.chains[p], meta);
      if t.act == SC.OUT then PortReads(e, t.dst) else []
    else []
  }

  /** Those a batch makes it read: an invalid action ends the batch. */
  function Reads(e: Env, metas: seq<SC.Meta>, pkts: seq<Pkt>): seq<Member>
    requires Readable(e) && |metas| == |e.rss| && forall k :: 0 <= k < |pkts| ==> pkts[k] < |metas|
  {
    if pkts == [] || metas[pkts[0]].act > SC.OUT then []
    else PacketReads(e, metas[pkts[0]], pkts[0]) + Reads(e, metas, pkts[1..])
  }

  /** The batch reads the union only as it was written. */
  ghost predicate ReadsLive(e: Env, metas: seq<SC.Meta>, pkts: seq<Pkt>)
    requires Readable(e) && |metas| == |e.rss| && forall k :: 0 <= k < |pkts| ==> pkts[k] < |metas|
  {
    forall u :: u in Reads(e, metas, pkts) ==> u == Live(e)
  }

  /** NEXT finds an OUT entry with a port number below the number of ports. */
  predicate LeadsToPort(e: Env, meta: SC.Meta, p: Pkt)
    requires Readable(e) && p < |e.rss|
  {
    var c := e.chains[p];
    meta.act == SC.NEXT && meta.scIndex < c.scLen &&
    var entry := c.entries[meta.scIndex + 1];
    entry.act == SC.OUT && entry.dst < |e.portIds|
  }

  lemma PacketReadsLiveIff(e: Env, meta: SC.Meta, p: Pkt)
    requires Readable(e) && p < |e.rss|
    ensures (forall u :: u in PacketReads(e, meta, p) ==> u == Live(e)) <==> (e.mgrNf || !LeadsToPort(e, meta, p))
  {
    if !e.mgrNf && LeadsToPort(e, meta, p) {
      assert TxThreadMember in PacketReads(e, meta, p);
    }
  }

  /** No packet the batch comes to leads from an instance's own queue to a port. */
  ghost predicate NoPortFromInstance(e: Env, metas: seq<SC.Meta>, pkts: seq<Pkt>)
    requires Readable(e) && |metas| == |e.rss| && forall k :: 0 <= k < |pkts| ==> pkts[k] < |metas|
  {
    e.mgrNf || forall k: nat :: k < |pkts| && Reached(metas, pkts, k) ==> !LeadsToPort(e, metas[pkts[k]], pkts[k])
  }

  /** A batch follows no wrong pointer just when no NEXT it comes to on the queue of an instance
      finds an OUT entry with a port number below the number of ports. */
  lemma {:induction false} ReadsLiveIff(e: Env, metas: seq<SC.Meta>, pkts: seq<Pkt>)
    requires Readable(e) && |metas| == |e.rss| && forall k :: 0 <= k < |pkts| ==> pkts[k] < |metas|
    ensures ReadsLive(e, metas, pkts) <==> NoPortFromInstance(e, metas, pkts)
  {
    hide Readable, PacketReads, LeadsToPort, SC.Advance;
    if pkts != [] && metas[pkts[0]].act <= SC.OUT {
      ReadsLiveIff(e, metas, pkts[1..]);
      PacketReadsLiveIff(e, metas[pkts[0]], pkts[0]);
      FirstOrRest(e, metas, pkts);
      var first, rest := PacketReads(e, metas[pkts[0]], pkts[0]), Reads(e, metas, pkts[1..]);
      assert Reads(e, metas, pkts) == first + rest;
      assert forall u :: u in first + rest <==> u in first || u in rest;
    } else if pkts != [] {
      FirstStops(e, metas, pkts);
    }
  }

  lemma FirstOrRest(e: Env, metas: seq<SC.Meta>, pkts: seq<Pkt>)
    requires Readable(e) && |metas| == |e.rss| && forall k :: 0 <= k < |pkts| ==> pkts[k] < |metas|
    requires pkts != [] && metas[pkts[0]].act <= SC.OUT
    ensures NoPortFromInstance(e, metas, pkts) <==>
            (e.mgrNf || !LeadsToPort(e, metas[pkts[0]], pkts[0])) && NoPortFromInstance(e, metas, pkts[1..])
  {
    hide Readable, LeadsToPort;
    var rest := pkts[1..];
    assert Reached(metas, pkts, 0);
    forall k: nat | k < |rest|
      ensures Reached(metas, pkts, k + 1) <==> Reached(metas, rest, k)
    {
      ReachedRest(metas, pkts, k);
    }
    if NoPortFromInstance(e, metas, pkts) && !e.mgrNf {
      forall k: nat | k < |rest| && Reached(metas, rest, k)
        ensures !LeadsToPort(e, metas[rest[k]], rest[k])
      {
        assert Reached(metas, pkts, k + 1) && pkts[k + 1] == rest[k];
      }
    }
    if NoPortFromInstance(e, metas, rest) && !e.mgrNf && !LeadsToPort(e, metas[pkts[0]], pkts[0]) {
      forall k: nat | k < |pkts| && Reached(metas, pkts, k)
        ensures !LeadsToPort(e, metas[pkts[k]], pkts[k])
      {
        if k > 0 {
          assert Reached(metas, rest, k - 1) && pkts[k] == rest[k - 1];
        }
      }
    }
  }

  lemma ReachedRest(metas: seq<SC.Meta>, pkts: seq<Pkt>, k: nat)
    requires k < |pkts| - 1
    requires forall j :: 0 <= j < |pkts| ==> pkts[j] < |metas|
    requires metas[pkts[0]].act <= SC.OUT
    ensures Reached(metas, pkts, k + 1) <==> Reached(metas, pkts[1..], k)
  {
    var rest := pkts[1..];
    assert forall j :: 0 <= j < |rest| ==> rest[j] == pkts[j + 1];
    if Reached(metas, rest, k) {
      forall j | 0 <= j < k + 1
        ensures metas[pkts[j]].act <= SC.OUT
      {
        if j > 0 {
          assert metas[rest[j - 1]].act <= SC.OUT;
        }
      }
    }
  }

  lemma FirstStops(e: Env, metas: seq<SC.Meta>, pkts: seq<Pkt>)
    requires Readable(e) && |metas| == |e.rss| && forall k :: 0 <= k < |pkts| ==> pkts[k] < |metas|
    requires pkts != [] && metas[pkts[0]].act > SC.OUT
    ensures NoPortFromInstance(e, metas, pkts)
  {
    forall k: nat | k < |pkts| && Reached(metas, pkts, k)
      ensures !LeadsToPort(e, metas[pkts[k]], pkts[k])
    {
      OnlyFirstReached(metas, pkts, k);
    }
  }

  lemma OnlyFirstReached(metas: seq<SC.Meta>, pkts: seq<Pkt>, k: nat)
    requires k < |pkts| && (forall j :: 0 <= j < |pkts| ==> pkts[j] < |metas|) && Reached(metas, pkts, k)
    requires metas[pkts[0]].act > SC.OUT
    ensures k == 0
  {
  }

  // ---------- Batches that go well ----------

  /** The packets the batch routes can be routed. */
  ghost predicate RoutableBatch(e: Env, metas: seq<SC.Meta>, pkts: seq<Pkt>)
    requires Readable(e) && |metas| == |e.rss|
  {
    (forall k :: 0 <= k < |pkts| ==> pkts[k] < |metas|) &&
    forall k: nat :: k < |pkts| && Reached(metas, pkts, k) ==> Routable(e, metas[pkts[k]], pkts[k])
  }

  ghost predicate Routable(e: Env, meta: SC.Meta, p: Pkt)
    requires Readable(e) && p < |e.rss|
  {
    (meta.act == SC.TONF ==> Reaches(e, meta.dst, p)) &&
    (meta.act == SC.NEXT ==>
       var t := SC.Advance(e.chains[p], meta);
       t.act == SC.TONF ==> Reaches(e, t.dst, p))
  }

  lemma SoundIs(e: Env, meta: SC.Meta, p: Pkt)
    requires Readable(e) && p < |e.rss|
    ensures Sound(e, meta, p) <==> Routable(e, meta, p) && (e.mgrNf || !LeadsToPort(e, meta, p))
  {
    hide Reaches;
  }

  /** What the theorems about batches ask is that the packets can be routed and that no wrong
      pointer is followed. */
  lemma SoundBatchIff(e: Env, metas: seq<SC.Meta>, pkts: seq<Pkt>)
    requires Readable(e) && |metas| == |e.rss| && forall k :: 0 <= k < |pkts| ==> pkts[k] < |metas|
    ensures SoundBatch(e, metas, pkts) <==> RoutableBatch(e, metas, pkts) && ReadsLive(e, metas, pkts)
  {
    hide Readable, Sound, Routable, LeadsToPort, ReadsLive, Reached;
    ReadsLiveIff(e, metas, pkts);
    forall k: nat | k < |pkts|
      ensures Sound(e, metas[pkts[k]], pkts[k]) <==>
              Routable(e, metas[pkts[k]], pkts[k]) && (e.mgrNf || !LeadsToPort(e, metas[pkts[k]], pkts[k]))
    {
      SoundIs(e, metas[pkts[k]], pkts[k]);
    }
  }

  /** The guards for a batch that neither follows a wrong pointer nor loses a packet: those of
      module Losses, and NEXT finds an OUT entry only on the queues of the manager. */
  ghost predicate BatchFine(e: Env, metas: seq<SC.Meta>, pkts: seq<Pkt>)
    requires Readable(e) && |metas| == |e.rss| && forall k :: 0 <= k < |pkts| ==> pkts[k] < |metas|
  {
    BatchKept(e, metas, pkts) &&
    (e.mgrNf || forall k :: 0 <= k < |pkts| ==> !LeadsToPort(e, metas[pkts[k]], pkts[k]))
  }

  /** Of the batches whose packets can be routed, exactly those that meet the guards neither
      follow a wrong pointer nor lose a packet. */
  lemma FineIff(e: Env, n: Net, pkts: seq<Pkt>, i: nat)
    requires Readable(e) && Ready(e, n) && RoutableBatch(e, n.metas, pkts) && i < MAX_NFS
    requires forall j, k :: 0 <= j < k < |pkts| ==> pkts[j] != pkts[k]
    ensures ReadsLive(e, n.metas, pkts) ==> BatchOk(e, n.metas, pkts)
    ensures ReadsLive(e, n.metas, pkts) && TxBatch(e, n, pkts, i).lost == n.lost <==> BatchFine(e, n.metas, pkts)
  {
    hide Readable, LeadsToPort, PacketKept, TxBatch, RoutableBatch, ReadsLive, SoundBatch;
    InRange(e, n.metas, pkts);
    SoundBatchIff(e, n.metas, pkts);
    ReadsLiveIff(e, n.metas, pkts);
    if ReadsLive(e, n.metas, pkts) {
      TxBatchLosesIff(e, n, pkts, i);
    }
    if BatchKept(e, n.metas, pkts) {
      AllReached(e, n.metas, pkts);
    }
  }

  lemma InRange(e: Env, metas: seq<SC.Meta>, pkts: seq<Pkt>)
    requires Readable(e) && |metas| == |e.rss| && RoutableBatch(e, metas, pkts)
    ensures forall k :: 0 <= k < |pkts| ==> pkts[k] < |metas|
  {
  }

  lemma AllReached(e: Env, metas: seq<SC.Meta>, pkts: seq<Pkt>)
    requires Readable(e) && |metas| == |e.rss| && forall k :: 0 <= k < |pkts| ==> pkts[k] < |metas|
    requires BatchKept(e, metas, pkts)
    ensures forall k: nat :: k < |pkts| ==> Reached(metas, pkts, k)
  {
    hide PacketKept;
  }

  /** An instance that returns a packet with NEXT where its chain goes on with OUT to port 0 makes
      the code read its tx buffer as a TX thread, although no guard against losses is broken. */
  lemma WrongMemberRead(e: Env, metas: seq<SC.Meta>, p: Pkt)
    requires Readable(e) && |metas| == |e.rss| && p < |metas| && !e.mgrNf && e.portIds != []
    requires metas[p].act == SC.NEXT && metas[p].scIndex == 1
    requires SC.Listed(e.chains[p]) == [SC.Entry(SC.TONF, 1), SC.Entry(SC.OUT, 0)]
    ensures Reads(e, metas, [p]) == [TxThreadMember] && Live(e) == TxBufMember
    ensures BatchKept(e, metas, [p]) && !SoundBatch(e, metas, [p])
  {
    assert SC.Listed(e.chains[p])[1] == SC.Entry(SC.OUT, 0);
    assert [p][1..] == [];
    assert PacketReads(e, metas[p], p) == [TxThreadMember];
    assert Reached(metas, [p], 0) && !Sound(e, metas[p], p);
  }
}

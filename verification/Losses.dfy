/**
 When a call loses packets, in terms of what its caller can look up: the meta data, the chains
 and the number of ports.
 */
module Losses {
  import opened Registry
  import opened TypeMap
  import opened PacketPath
  import opened Delivery
  import SC = ServiceChain

  /** The next entry of the chain, if there is one, says drop, instance, or a port number below
      the number of ports. */
  predicate EntryKept(e: Env, meta: SC.Meta, p: Pkt)
    requires Readable(e) && p < |e.rss|
  {
    var c := e.chains[p];
    meta.scIndex < c.scLen ==>
      var entry := c.entries[meta.scIndex + 1];
      entry.act == SC.DROP || entry.act == SC.TONF || (entry.act == SC.OUT && entry.dst < |e.portIds|)
  }

  predicate PacketKept(e: Env, meta: SC.Meta, p: Pkt)
    requires Readable(e) && p < |e.rss|
  {
    (meta.act == SC.OUT && e.mgrNf ==> meta.dst < |e.portIds|) &&
    (meta.act == SC.NEXT ==> EntryKept(e, meta, p))
  }

  /** Only the last packet may have an invalid action, OUT on the manager's queues names a port
      number below the number of ports, and NEXT finds an entry that can be followed. */
  ghost predicate BatchKept(e: Env, metas: seq<SC.Meta>, pkts: seq<Pkt>)
    requires Readable(e) && |metas| == |e.rss|
    requires forall k :: 0 <= k < |pkts| ==> pkts[k] < |metas|
  {
    forall k :: 0 <= k < |pkts| ==>
      (metas[pkts[k]].act > SC.OUT ==> k == |pkts| - 1) && PacketKept(e, metas[pkts[k]], pkts[k])
  }

  lemma KeptIsNotForgotten(e: Env, meta: SC.Meta, p: Pkt)
    requires Readable(e) && p < |e.rss| && Sound(e, meta, p) && meta.act <= SC.OUT
    ensures TxFate(e, meta, p) == Forgotten <==> !PacketKept(e, meta, p)
  {
    hide Reaches, Target;
  }

  lemma {:induction false} ForgottenIff(e: Env, metas: seq<SC.Meta>, pkts: seq<Pkt>)
    requires Readable(e) && |metas| == |e.rss| && SoundBatch(e, metas, pkts)
    ensures Forgotten in TxFates(e, metas, pkts) <==> !BatchKept(e, metas, pkts)
  {
    hide Reaches, Sound, TxFate, PacketKept, SoundBatch;
    InPool(e, metas, pkts);
    if pkts != [] {
      var p, rest := pkts[0], pkts[1..];
      if metas[p].act > SC.OUT {
        assert |rest| > 0 ==> TxFates(e, metas, pkts)[1] == Forgotten;
        assert PacketKept(e, metas[p], p) by { InvalidKept(e, metas[p], p); }
      } else {
        FirstSound(e, metas, pkts);
        RestSound(e, metas, pkts);
        KeptIsNotForgotten(e, metas[p], p);
        ForgottenIff(e, metas, rest);
        assert TxFates(e, metas, pkts)[1..] == TxFates(e, metas, rest);
        if BatchKept(e, metas, rest) && PacketKept(e, metas[p], p) {
          assert forall k :: 1 <= k < |pkts| ==> pkts[k] == rest[k - 1];
        } else if !BatchKept(e, metas, rest) {
          RestNotKept(e, metas, pkts);
        }
      }
    }
  }

  lemma InvalidKept(e: Env, meta: SC.Meta, p: Pkt)
    requires Readable(e) && p < |e.rss| && meta.act > SC.OUT
    ensures PacketKept(e, meta, p)
  {
  }

  lemma RestNotKept(e: Env, metas: seq<SC.Meta>, pkts: seq<Pkt>)
    requires Readable(e) && |metas| == |e.rss| && pkts != []
    requires forall k :: 0 <= k < |pkts| ==> pkts[k] < |metas|
    requires !BatchKept(e, metas, pkts[1..])
    ensures !BatchKept(e, metas, pkts)
  {
    hide PacketKept;
    var rest := pkts[1..];
    var k :| 0 <= k < |rest| &&
             !((metas[rest[k]].act > SC.OUT ==> k == |rest| - 1) && PacketKept(e, metas[rest[k]], rest[k]));
    assert rest[k] == pkts[k + 1];
  }

  /** A batch from an instance loses no packet just when its meta data, the chains and the number
      of ports meet the guards. */
  lemma TxBatchLosesIff(e: Env, n: Net, pkts: seq<Pkt>, i: nat)
    requires Readable(e) && Ready(e, n) && BatchOk(e, n.metas, pkts) && i < MAX_NFS
    ensures TxBatch(e, n, pkts, i).lost == n.lost <==> BatchKept(e, n.metas, pkts)
    ensures n.lost <= TxBatch(e, n, pkts, i).lost
  {
    hide TracksAt, Readable, TxFates, TxBatch, SoundBatch, Pick, BatchKept;
    InPool(e, n.metas, pkts);
    TracksSelf(n);
    TxBatchDelivers(n, e, n, pkts, i);
    PickEmpty(pkts, TxFates(e, n.metas, pkts), Forgotten);
    ForgottenIff(e, n.metas, pkts);
  }

  // ---------- Port numbers and port ids ----------

  /** The flush of all ports empties the buffers of the listed ids and no others. */
  lemma {:induction false} FlushedPorts(e: Env, n: Net, m: nat, port: nat)
    requires Ready(e, n) && m <= |e.portIds| && e.mgrNf && port < |n.ports|
    ensures FlushAllPorts(e, n, m).portBufs[port] == if port in e.portIds[..m] then [] else n.portBufs[port]
  {
    hide FlushPort;
    if m > 0 {
      FlushedPorts(e, n, m - 1, port);
      FlushedPort(e, FlushAllPorts(e, n, m - 1), e.portIds[m - 1], port);
      assert e.portIds[..m] == e.portIds[..m - 1] + [e.portIds[m - 1]];
    }
  }

  lemma FlushedPort(e: Env, n: Net, id: nat, port: nat)
    requires Sized(e, n) && id < |n.ports| && port < |n.ports| && e.mgrNf
    ensures FlushPort(e, n, id).portBufs[port] == if port == id then [] else n.portBufs[port]
  {
  }

  /** What is accepted is a port number, what is flushed is a port id: a packet for the port is
      accepted just when the port is below their number, and flushed out just when it is listed. */
  predicate Accepted(e: Env, port: nat) {
    port < |e.portIds|
  }

  /** With distinct ids, every listed port is accepted just when every accepted port is listed:
      when the ids are the numbers from 0 on, in some order. */
  lemma PortsMatchIff(e: Env)
    requires Distinct(e.portIds)
    ensures (forall port :: port in e.portIds ==> Accepted(e, port)) <==>
            (forall port :: Accepted(e, port) ==> port in e.portIds)
  {
    var ids, n := e.portIds, |e.portIds|;
    var listed, numbers := (set port | port in ids), Below(n);
    SizeOfDistinct(ids, listed);
    BelowHolds(n);
    if forall port :: port in ids ==> Accepted(e, port) {
      assert listed <= numbers;
      SubsetOfSameSize(listed, numbers);
    }
    if forall port :: Accepted(e, port) ==> port in ids {
      assert numbers <= listed;
      SubsetOfSameSize(numbers, listed);
    }
    assert forall port :: port in ids ==> port in listed;
  }

  /** The numbers below n. */
  function Below(n: nat): set<nat> {
    if n == 0 then {} else Below(n - 1) + {n - 1}
  }

  lemma {:induction false} BelowHolds(n: nat)
    ensures |Below(n)| == n
    ensures forall k: nat :: k in Below(n) <==> k < n
  {
    if n > 0 {
      BelowHolds(n - 1);
    }
  }

  lemma SubsetOfSameSize(a: set<nat>, b: set<nat>)
    requires a <= b && |a| == |b|
    ensures a == b
  {
    assert b == a + (b - a);
  }

  /** With ports 1 and 3, packets for port 3 are forgotten, and those for number 0 wait in a
      buffer that the flush of all ports does not touch. */
  lemma PortIdsAreNotNumbers(e: Env, n: Net, p: Pkt)
    requires Ready(e, n) && e.mgrNf && e.portIds == [1, 3]
    ensures EnqueuePort(e, n, 3, p).lost == n.lost + [p]
    ensures FlushAllPorts(e, n, 2).portBufs[0] == n.portBufs[0] && Accepted(e, 0)
  {
    FlushedPorts(e, n, 2, 0);
    assert e.portIds[..2] == [1, 3];
  }
}

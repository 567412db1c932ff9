/**
 What the loops of the RX thread, the TX threads and the instances call, as seen by the owner of
 the buffer queue: a dequeue where there is one, and the work on what was taken.
 */
module PacketCalls {
  import opened Registry
  import opened Bags
  import opened PacketPath
  import opened Conservation
  import opened Delivery
  import opened Outbound
  import opened Losses
  import SC = ServiceChain

  /** Receive a batch from a port, which is dropped while no instance is ready; take a batch from the tx ring of an instance; an instance
      takes a batch from its own ring and its handler sets the meta data; and the flushes. */
  datatype Call =
    | Receive(pkts: seq<Pkt>)
    | TxTurn(i: nat)
    | NfTurn(i: nat, metas: seq<SC.Meta>)
    | FlushBqs
    | FlushPorts
    | FlushTx(i: nat)

  function Burst(q: seq<Pkt>): (r: nat)
    ensures r <= |q| && r <= PKT_RD_SIZE
  {
    if |q| <= PKT_RD_SIZE then |q| else PKT_RD_SIZE
  }

  function TakeTx(n: Net, i: nat): Net
    requires i < |n.nfs|
  {
    var q := n.nfs[i];
    n.(nfs := n.nfs[i := q.(txQ := q.txQ[Burst(q.txQ)..])])
  }

  function TxTaken(n: Net, i: nat): seq<Pkt>
    requires i < |n.nfs|
  {
    n.nfs[i].txQ[..Burst(n.nfs[i].txQ)]
  }

  function TakeRx(n: Net, i: nat, metas: seq<SC.Meta>): Net
    requires i < |n.nfs|
  {
    var q := n.nfs[i];
    n.(nfs := n.nfs[i := q.(rxQ := q.rxQ[Burst(q.rxQ)..])], metas := metas)
  }

  function RxTaken(n: Net, i: nat): seq<Pkt>
    requires i < |n.nfs|
  {
    n.nfs[i].rxQ[..Burst(n.nfs[i].rxQ)]
  }

  /** What each call asks; only those that route packets ask that these packets can be routed. */
  ghost predicate CallOk(e: Env, n: Net, c: Call) {
    Readable(e) && Ready(e, n) &&
    match c
    case Receive(pkts) => e.s.numNfs > 0 ==> ArrivalsOk(e, pkts)
    case TxTurn(i) => i < MAX_NFS && (Valid(e.s, i) ==> BatchOk(e, n.metas, TxTaken(n, i)))
    case NfTurn(i, metas) => i < MAX_NFS && |metas| == |n.metas| && BatchOk(e, metas, RxTaken(n, i))
    case FlushTx(i) => i < MAX_NFS
    case _ => true
  }

  /** The state after the dequeue. */
  function Base(e: Env, n: Net, c: Call): Net
    requires CallOk(e, n, c)
  {
    match c
    case TxTurn(i) => if Valid(e.s, i) then TakeTx(n, i) else n
    case NfTurn(i, metas) => TakeRx(n, i, metas)
    case _ => n
  }

  function Do(e: Env, n: Net, c: Call): (r: Net)
    requires CallOk(e, n, c)
    ensures Ready(e, r)
  {
    match c
    case Receive(pkts) => if e.s.numNfs > 0 then RxBatch(e, n, pkts) else Release(n, pkts)
    case TxTurn(i) => if Valid(e.s, i) then TxBatch(e, TakeTx(n, i), TxTaken(n, i), i) else n
    case NfTurn(i, metas) => TxBatch(e, TakeRx(n, i, metas), RxTaken(n, i), i)
    case FlushBqs => FlushAllBqs(e, n, MAX_NFS)
    case FlushPorts => FlushAllPorts(e, n, |e.portIds|)
    case FlushTx(i) => EnqueueTxRing(n, i)
  }

  /** How often a call brings packet x in from outside. */
  function Handed(c: Call, x: Pkt): nat {
    if c.Receive? then Times(c.pkts, x) else 0
  }

  lemma TakeTxCopies(n: Net, i: nat, x: Pkt)
    requires i < |n.nfs|
    ensures Copies(TakeTx(n, i), x) + Times(TxTaken(n, i), x) == Copies(n, x)
  {
    hide Tally, Times, InRings, Burst;
    var q := n.nfs[i];
    RingsOfUpdate(n.nfs, i, TakeTx(n, i).nfs[i], x);
    TimesOfSum(TxTaken(n, i), q.txQ[Burst(q.txQ)..], x);
    assert TxTaken(n, i) + q.txQ[Burst(q.txQ)..] == q.txQ;
  }

  lemma TakeRxCopies(n: Net, i: nat, metas: seq<SC.Meta>, x: Pkt)
    requires i < |n.nfs|
    ensures Copies(TakeRx(n, i, metas), x) + Times(RxTaken(n, i), x) == Copies(n, x)
  {
    hide Tally, Times, InRings, Burst;
    var q := n.nfs[i];
    RingsOfUpdate(n.nfs, i, TakeRx(n, i, metas).nfs[i], x);
    TimesOfSum(RxTaken(n, i), q.rxQ[Burst(q.rxQ)..], x);
    assert RxTaken(n, i) + q.rxQ[Burst(q.rxQ)..] == q.rxQ;
  }

  lemma TakeTxReady(e: Env, n: Net, i: nat)
    requires Ready(e, n) && i < MAX_NFS
    ensures Ready(e, TakeTx(n, i)) && TakeTx(n, i).metas == n.metas
  {
  }

  lemma TakeRxReady(e: Env, n: Net, i: nat, metas: seq<SC.Meta>)
    requires Ready(e, n) && i < MAX_NFS && |metas| == |n.metas|
    ensures Ready(e, TakeRx(n, i, metas)) && TakeRx(n, i, metas).metas == metas
  {
  }

  /** After a call each packet is in as many places as before and handed in. */
  lemma DoConserves(e: Env, n: Net, c: Call, x: Pkt)
    requires CallOk(e, n, c)
    ensures Copies(Do(e, n, c), x) == Copies(n, x) + Handed(c, x)
  {
    hide Copies, Times, RxBatch, TxBatch, FlushAllBqs, FlushAllPorts, EnqueueTxRing, BatchOk, TakeTx, TakeRx;
    match c
    case Receive(pkts) =>
      if e.s.numNfs > 0 {
        RxBatchConserves(e, n, pkts, x);
      } else {
        ReleaseCopies(n, pkts, x);
      }
    case TxTurn(i) =>
      if Valid(e.s, i) {
        TakeTxCopies(n, i, x);
        TakeTxReady(e, n, i);
        TxBatchConserves(e, TakeTx(n, i), TxTaken(n, i), i, x);
      }
    case NfTurn(i, metas) =>
      TakeRxCopies(n, i, metas, x);
      TakeRxReady(e, n, i, metas);
      TxBatchConserves(e, TakeRx(n, i, metas), RxTaken(n, i), i, x);
    case FlushBqs => FlushAllBqsCopies(e, n, MAX_NFS, x);
    case FlushPorts => FlushAllPortsCopies(e, n, |e.portIds|, x);
    case FlushTx(i) => EnqueueTxRingCopies(n, i, x);
  }

  lemma {:induction false} FlushAllPortsTracks(n0: Net, e: Env, n: Net, k: nat)
    requires Ready(e, n) && k <= |e.portIds| && Tracks(n0, n)
    ensures var r := FlushAllPorts(e, n, k); Tracks(n0, r) && SameHistories(n, r)
  {
    hide Tracks;
    if k > 0 {
      FlushAllPortsTracks(n0, e, n, k - 1);
      var t := FlushAllPorts(e, n, k - 1);
      SameReceiveTracks(n0, t, FlushPort(e, t, e.portIds[k - 1]));
    }
  }

  /** The sizes the lanes speak about. */
  lemma BaseSized(e: Env, n: Net, c: Call)
    requires CallOk(e, n, c)
    ensures Ready(e, Base(e, n, c)) && SameHistories(n, Base(e, n, c))
  {
    hide Readable, BatchOk;
  }

  /** The work keeps the packets of every instance in the order they were routed. */
  lemma DoTracks(e: Env, n: Net, c: Call)
    requires CallOk(e, n, c)
    ensures Tracks(Base(e, n, c), Do(e, n, c))
  {
    hide Tracks, RxEach, TxBatch, FlushAllBqs, FlushAllPorts, BatchOk, ArrivalsOk, TakeTx, TakeRx;
    var m := Base(e, n, c);
    BaseSized(e, n, c);
    TracksSelf(m);
    match c
    case Receive(pkts) =>
      if e.s.numNfs > 0 {
        RxEachDelivers(m, e, m, pkts);
        FlushAllBqsTracks(m, e, RxEach(e, m, pkts), MAX_NFS);
      } else {
        SameReceiveTracks(m, m, Release(m, pkts));
      }
    case TxTurn(i) =>
      if Valid(e.s, i) {
        TakeTxReady(e, n, i);
        TxBatchDelivers(m, e, m, TxTaken(n, i), i);
      }
    case NfTurn(i, metas) =>
      TakeRxReady(e, n, i, metas);
      TxBatchDelivers(m, e, m, RxTaken(n, i), i);
    case FlushBqs => FlushAllBqsTracks(m, e, m, MAX_NFS);
    case FlushPorts => FlushAllPortsTracks(m, e, m, |e.portIds|);
    case FlushTx(i) => SameReceiveTracks(m, m, EnqueueTxRing(m, i));
  }

  /** and those for every port and for the tx ring of the instance at work, i. */
  lemma DoLeaves(e: Env, n: Net, c: Call, i: nat)
    requires CallOk(e, n, c) && i < MAX_NFS
    requires (c.TxTurn? || c.NfTurn? || c.FlushTx?) ==> c.i == i
    ensures Leaves(Base(e, n, c), Do(e, n, c), i)
  {
    hide Leaves, RxEach, TxBatch, FlushAllBqs, FlushAllPorts, EnqueueTxRing, BatchOk, ArrivalsOk, TakeTx, TakeRx;
    var m := Base(e, n, c);
    BaseSized(e, n, c);
    LeavesSelf(m, i);
    match c
    case Receive(pkts) =>
      if e.s.numNfs > 0 {
        RxEachLeaves(m, e, m, pkts, i);
        FlushAllBqsLeaves(m, e, RxEach(e, m, pkts), MAX_NFS, i);
      } else {
        SameOutLeaves(m, m, Release(m, pkts), i);
      }
    case TxTurn(_) =>
      if Valid(e.s, i) {
        TakeTxReady(e, n, i);
        TxBatchLeaves(m, e, m, TxTaken(n, i), i);
      }
    case NfTurn(_, metas) =>
      TakeRxReady(e, n, i, metas);
      TxBatchLeaves(m, e, m, RxTaken(n, i), i);
    case FlushBqs => FlushAllBqsLeaves(m, e, m, MAX_NFS, i);
    case FlushPorts => FlushAllPortsLeaves(m, e, m, |e.portIds|, i);
    case FlushTx(_) => EnqueueTxRingLeaves(m, m, i);
  }

  // ---------- Losses ----------

  /** The batch the call works on, if any, meets the guards of module Losses. */
  ghost predicate CallKept(e: Env, n: Net, c: Call)
    requires CallOk(e, n, c)
  {
    match c
    case TxTurn(i) => Valid(e.s, i) ==> BatchKept(e, n.metas, TxTaken(n, i))
    case NfTurn(i, metas) => BatchKept(e, metas, RxTaken(n, i))
    case _ => true
  }

  lemma DoLosesIff(e: Env, n: Net, c: Call)
    requires CallOk(e, n, c)
    ensures Do(e, n, c).lost == n.lost <==> CallKept(e, n, c)
    ensures n.lost <= Do(e, n, c).lost
  {
    hide Tracks, RxBatch, TxBatch, FlushAllBqs, FlushAllPorts, BatchOk, BatchKept, ArrivalsOk;
    TracksSelf(n);
    match c
    case Receive(pkts) =>
      if e.s.numNfs > 0 {
        RxBatchDelivers(e, n, pkts);
      }
    case TxTurn(i) =>
      if Valid(e.s, i) {
        TakeTxReady(e, n, i);
        TxBatchLosesIff(e, TakeTx(n, i), TxTaken(n, i), i);
      }
    case NfTurn(i, metas) =>
      TakeRxReady(e, n, i, metas);
      TxBatchLosesIff(e, TakeRx(n, i, metas), RxTaken(n, i), i);
    case FlushBqs => FlushAllBqsTracks(n, e, n, MAX_NFS);
    case FlushPorts => FlushAllPortsTracks(n, e, n, |e.portIds|);
    case FlushTx(i) =>
  }
}

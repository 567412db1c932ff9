/**
 The statistics against what all owners have put in: they differ by what still waits in the
 owners' buffers.
 */
module Accounts {
  import opened Registry
  import opened Bags
  import opened Lanes
  import opened PacketPath
  import opened Delivery
  import opened Outbound
  import opened PacketCalls
  import opened Owners
  import opened Ordering
  import SC = ServiceChain

  /** What waits in the owners' buffers for instance i less what they routed there. */
  function RxOpen(w: World, i: nat): seq<int>
    requires Formed(w) && i < MAX_NFS
  {
    seq(|w.owns|, o requires 0 <= o < |w.owns| => |w.owns[o].bufs[i]| - |w.owns[o].routed[i]|)
  }

  function PortOpen(w: World, k: nat): seq<int>
    requires Formed(w) && k < |w.ports|
  {
    seq(|w.owns|, o requires 0 <= o < |w.owns| => |w.owns[o].portBufs[k]| - |w.owns[o].posted[k]|)
  }

  /** The same for the tx ring of instance j, which only buffer queues of that instance feed. */
  function TxOpen(w: World, j: nat): seq<int> {
    seq(|w.owns|, o requires 0 <= o < |w.owns| =>
      if w.owns[o].owner == Instance(j) then |w.owns[o].txBuf| - |w.owns[o].returned| else 0)
  }

  /** rx + rx_drop and the packets that wait, less all packets routed to the instance. */
  function RxBalance(w: World, i: nat): int
    requires Formed(w) && i < MAX_NFS
  {
    w.nfs[i].stats.rx + w.nfs[i].stats.rxDrop + Sum(RxOpen(w, i))
  }

  function PortBalance(w: World, k: nat): int
    requires Formed(w) && k < |w.ports|
  {
    w.ports[k].tx + w.ports[k].txDrop + Sum(PortOpen(w, k))
  }

  function TxBalance(w: World, j: nat): int
    requires Formed(w) && j < MAX_NFS
  {
    w.nfs[j].stats.tx + w.nfs[j].stats.txDrop + Sum(TxOpen(w, j))
  }

  /** The tx buffers of the manager's queues are not used. */
  ghost predicate ManagersQuiet(w: World) {
    forall o :: 0 <= o < |w.owns| && !w.owns[o].owner.Instance? ==> w.owns[o].txBuf == w.owns[o].returned == []
  }

  lemma {:induction false} NoTxRing(e: Env, metas: seq<SC.Meta>, pkts: seq<Pkt>)
    requires Readable(e) && |metas| == |e.rss| && e.mgrNf && SoundBatch(e, metas, pkts)
    ensures ToTxRing !in TxFates(e, metas, pkts)
  {
    hide Reaches, Target, SoundBatch;
    InPool(e, metas, pkts);
    if pkts != [] && metas[pkts[0]].act <= SC.OUT {
      FirstSound(e, metas, pkts);
      RestSound(e, metas, pkts);
      NoTxRing(e, metas, pkts[1..]);
    }
  }

  lemma {:induction false} NoTxRingFromNic(e: Env, pkts: seq<Pkt>)
    requires Readable(e) && ArrivalsOk(e, pkts)
    ensures ToTxRing !in RxFates(e, pkts)
  {
    hide Reaches, Target;
  }

  /** The work on a queue of the manager returns nothing to a tx ring. */
  lemma ManagerReturnsNothing(e: Env, n: Net, c: Call)
    requires CallOk(e, n, c) && e.mgrNf && !c.FlushTx?
    ensures Do(e, n, c).returned == n.returned
  {
    hide Tracks, RxBatch, TxBatch, FlushAllBqs, FlushAllPorts, TakeTx, TakeRx, Reaches, Sound, TxFates, RxFates;
    var m := Base(e, n, c);
    BaseSized(e, n, c);
    TracksSelf(m);
    match c
    case Receive(pkts) =>
      if e.s.numNfs > 0 {
        RxBatchDelivers(e, n, pkts);
        NoTxRingFromNic(e, pkts);
        PickEmpty(pkts, RxFates(e, pkts), ToTxRing);
      }
    case TxTurn(i) =>
      if Valid(e.s, i) {
        TakeTxReady(e, n, i);
        TxBatchDelivers(m, e, m, TxTaken(n, i), i);
        NoTxRing(e, n.metas, TxTaken(n, i));
        PickEmpty(TxTaken(n, i), TxFates(e, n.metas, TxTaken(n, i)), ToTxRing);
      }
    case NfTurn(i, metas) =>
      TakeRxReady(e, n, i, metas);
      TxBatchDelivers(m, e, m, RxTaken(n, i), i);
      NoTxRing(e, metas, RxTaken(n, i));
      PickEmpty(RxTaken(n, i), TxFates(e, metas, RxTaken(n, i)), ToTxRing);
    case FlushBqs => FlushAllBqsTracks(m, e, m, MAX_NFS);
    case FlushPorts => FlushAllPortsTracks(m, e, m, |e.portIds|);
  }

  lemma NothingIn(q0: seq<Pkt>, q: seq<Pkt>, b: seq<Pkt>)
    requires Lane(q0, [], [], q, b, [])
    ensures q == q0 && b == []
  {
    var a := q[|q0|..];
    assert a + b == [];
    assert q == q0 + a;
  }

  lemma ActQuiet(w: World, t: Step)
    requires Formed(w) && StepOk(w, t) && ManagersQuiet(w)
    ensures ManagersQuiet(Act(w, t))
  {
    hide Act, Base, CallOk, Tagged, IsSub, Lane;
    OthersKept(w, t);
    if !w.owns[t.o].owner.Instance? {
      QuietStep(w, t);
    }
  }

  lemma QuietStep(w: World, t: Step)
    requires Formed(w) && StepOk(w, t) && ManagersQuiet(w) && !w.owns[t.o].owner.Instance?
    ensures var v := Act(w, t);
            v.owns[t.o].txBuf == v.owns[t.o].returned == [] && |v.nfs| == MAX_NFS &&
            forall j :: 0 <= j < MAX_NFS ==>
              v.nfs[j].stats.tx + v.nfs[j].stats.txDrop == w.nfs[j].stats.tx + w.nfs[j].stats.txDrop
  {
    hide Base, CallOk, IsSub, Lane, Do, TracksAt, PortTracksAt;
    var n, v := View(w, t.o), Act(w, t);
    ManagerReturnsNothing(t.e, n, t.c);
    WorksFor(w, t);
    var i := AtWork(w.owns[t.o].owner, t.c);
    assert v.owns[t.o].returned == [];
    QuietRing(w, t, i);
    TxLane(w, t, i);
    forall j | 0 <= j < MAX_NFS
      ensures v.nfs[j].stats.tx + v.nfs[j].stats.txDrop == w.nfs[j].stats.tx + w.nfs[j].stats.txDrop
    {
      TxLane(w, t, j);
    }
  }

  lemma QuietRing(w: World, t: Step, i: nat)
    requires Formed(w) && StepOk(w, t) && i == AtWork(w.owns[t.o].owner, t.c) && i < MAX_NFS
    requires w.owns[t.o].txBuf == w.owns[t.o].returned == Act(w, t).owns[t.o].returned == []
    ensures Act(w, t).owns[t.o].txBuf == []
  {
    hide Act, Base, CallOk, Tagged, IsSub, Lane;
    TxLane(w, t, i);
    NothingIn(Base(t.e, View(w, t.o), t.c).nfs[i].txQ, Act(w, t).nfs[i].txQ, Act(w, t).owns[t.o].txBuf);
  }

  // ---------- Balances ----------

  /** A step keeps rx + rx_drop in step with what all owners have routed. */
  lemma ActRxBalance(w: World, t: Step, i: nat)
    requires Formed(w) && StepOk(w, t) && i < MAX_NFS
    ensures Formed(Act(w, t)) && RxBalance(Act(w, t), i) == RxBalance(w, i)
    ensures Act(w, t).nfs[i].stats.actDrop == w.nfs[i].stats.actDrop
  {
    hide Act, Base, CallOk, IsSub, Lane;
    var v := Act(w, t);
    ActFormed(w, t);
    RxLane(w, t, i);
    OthersKept(w, t);
    var d := |v.owns[t.o].bufs[i]| - |v.owns[t.o].routed[i]|;
    assert RxOpen(v, i) == RxOpen(w, i)[t.o := d];
    SumOfUpdate(RxOpen(w, i), t.o, d);
  }

  lemma ActPortBalance(w: World, t: Step, k: nat)
    requires Formed(w) && StepOk(w, t) && k < |w.ports|
    ensures Formed(Act(w, t)) && |Act(w, t).ports| == |w.ports| && PortBalance(Act(w, t), k) == PortBalance(w, k)
    ensures Act(w, t).ports[k].tx - |Act(w, t).ports[k].sent| == w.ports[k].tx - |w.ports[k].sent|
  {
    hide Act, Base, CallOk, IsSub, Lane;
    var v := Act(w, t);
    ActFormed(w, t);
    PortLane(w, t, k);
    OthersKept(w, t);
    var d := |v.owns[t.o].portBufs[k]| - |v.owns[t.o].posted[k]|;
    assert PortOpen(v, k) == PortOpen(w, k)[t.o := d];
    SumOfUpdate(PortOpen(w, k), t.o, d);
  }

  lemma ActTxBalance(w: World, t: Step, j: nat)
    requires Formed(w) && StepOk(w, t) && ManagersQuiet(w) && j < MAX_NFS
    ensures Formed(Act(w, t)) && TxBalance(Act(w, t), j) == TxBalance(w, j)
  {
    hide Act, Base, CallOk, IsSub, Lane;
    var v, own := Act(w, t), w.owns[t.o];
    ActFormed(w, t);
    OthersKept(w, t);
    var d := if own.owner == Instance(j) then |v.owns[t.o].txBuf| - |v.owns[t.o].returned| else 0;
    assert TxOpen(v, j) == TxOpen(w, j)[t.o := d];
    SumOfUpdate(TxOpen(w, j), t.o, d);
    if own.owner.Instance? {
      OwnAtWork(w, t);
      TxLane(w, t, j);
    } else {
      QuietStep(w, t);
    }
  }
}

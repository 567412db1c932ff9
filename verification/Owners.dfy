/**
 All threads and instances together: the rings, ports and meta data they share, and the buffer
 queue each of them owns.
 */
module Owners {
  import opened Registry
  import opened Bags
  import opened Lanes
  import opened PacketPath
  import opened Conservation
  import opened Delivery
  import opened PacketCalls
  import Outbound
  import SC = ServiceChain

  datatype Owner = RxThread | TxThread | Instance(i: nat)

  /** A buffer queue with its owner and its histories. */
  datatype Own = Own(owner: Owner, bufs: seq<seq<Pkt>>, txBuf: seq<Pkt>, portBufs: seq<seq<Pkt>>,
                     routed: seq<seq<Pkt>>, posted: seq<seq<Pkt>>, returned: seq<Pkt>)

  /** The shared state and the owners.  rxTags, txTags and sentTags say of each packet in a
      receive ring, in a tx ring and sent by a port which owner put it there. */
  datatype World = World(
    metas: seq<SC.Meta>, nfs: seq<Queue>, ports: seq<Port>, nic: seq<nat>, freed: seq<Pkt>, lost: seq<Pkt>,
    owns: seq<Own>, rxTags: seq<seq<nat>>, txTags: seq<seq<nat>>, sentTags: seq<seq<nat>>)

  /** The state as owner o sees it. */
  function View(w: World, o: nat): Net
    requires o < |w.owns|
  {
    var own := w.owns[o];
    Net(w.metas, w.nfs, own.bufs, own.txBuf, own.portBufs, w.ports, w.nic, w.freed, w.lost,
        own.routed, own.posted, own.returned)
  }

  function Owned(owner: Owner, n: Net): Own {
    Own(owner, n.bufs, n.txBuf, n.portBufs, n.routed, n.posted, n.returned)
  }

  /** The tags after the queues lost packets at the head (q0 to q1) and gained packets of owner
      o at the end (q1 to q2). */
  function Retag(tags: seq<seq<nat>>, q0: seq<seq<Pkt>>, q1: seq<seq<Pkt>>, q2: seq<seq<Pkt>>, o: nat): (r: seq<seq<nat>>)
    requires |tags| == |q0| == |q1| == |q2|
    requires forall i :: 0 <= i < |q0| ==> |tags[i]| == |q0[i]| && |q1[i]| <= |q0[i]| && |q1[i]| <= |q2[i]|
    ensures |r| == |q2| && forall i :: 0 <= i < |q2| ==> |r[i]| == |q2[i]|
  {
    seq(|q2|, i requires 0 <= i < |q2| => tags[i][|q0[i]| - |q1[i]|..] + Repeat(o, |q2[i]| - |q1[i]|))
  }

  ghost predicate Tagged(w: World) {
    |w.nfs| == |w.rxTags| == |w.txTags| == MAX_NFS && |w.sentTags| == |w.ports| &&
    (forall i :: 0 <= i < MAX_NFS ==> |w.rxTags[i]| == |w.nfs[i].rxQ| && |w.txTags[i]| == |w.nfs[i].txQ|) &&
    (forall k :: 0 <= k < |w.ports| ==> |w.sentTags[k]| == |w.ports[k].sent|)
  }

  /** The RX threads receive, the TX threads serve instances and ports, and an instance serves
      itself. */
  predicate Allowed(owner: Owner, c: Call) {
    match owner
    case RxThread => c.Receive?
    case TxThread => c.TxTurn? || c.FlushPorts? || c.FlushBqs?
    case Instance(i) => ((c.NfTurn? || c.FlushTx?) && c.i == i) || c.FlushBqs?
  }

  /** One step of the system: a call, the owner that makes it, and what it reads then. */
  datatype Step = Step(o: nat, e: Env, c: Call)

  ghost predicate StepOk(w: World, t: Step) {
    Tagged(w) && t.o < |w.owns| && Allowed(w.owns[t.o].owner, t.c) &&
    t.e.mgrNf == !w.owns[t.o].owner.Instance? && CallOk(t.e, View(w, t.o), t.c)
  }

  /** The instance the call works for; any where there is none. */
  function AtWork(owner: Owner, c: Call): nat {
    if c.TxTurn? then c.i else if owner.Instance? && owner.i < MAX_NFS then owner.i else 0
  }

  /** The dequeue takes from the head and the work adds at the end, of every queue. */
  lemma Grows(w: World, t: Step)
    requires StepOk(w, t)
    ensures var n, m, r := View(w, t.o), Base(t.e, View(w, t.o), t.c), Do(t.e, View(w, t.o), t.c);
            |m.nfs| == |r.nfs| == MAX_NFS && |m.ports| == |r.ports| == |w.ports| &&
            (forall i :: 0 <= i < MAX_NFS ==>
               |m.nfs[i].rxQ| <= |n.nfs[i].rxQ| && |m.nfs[i].rxQ| <= |r.nfs[i].rxQ| &&
               |m.nfs[i].txQ| <= |n.nfs[i].txQ| && |m.nfs[i].txQ| <= |r.nfs[i].txQ|) &&
            (forall k :: 0 <= k < |w.ports| ==>
               |m.ports[k].sent| <= |n.ports[k].sent| && |m.ports[k].sent| <= |r.ports[k].sent|)
  {
    hide Do, IsSub, CallOk;
    var n := View(w, t.o);
    var i := AtWork(w.owns[t.o].owner, t.c);
    assert i < MAX_NFS && ((t.c.TxTurn? || t.c.NfTurn? || t.c.FlushTx?) ==> t.c.i == i) by { WorksFor(w, t); }
    DoTracks(t.e, n, t.c);
    DoLeaves(t.e, n, t.c, i);
    GrownLanes(Base(t.e, n, t.c), Do(t.e, n, t.c), i);
    BaseTakes(t.e, n, t.c);
  }

  lemma WorksFor(w: World, t: Step)
    requires StepOk(w, t)
    ensures var i := AtWork(w.owns[t.o].owner, t.c);
            i < MAX_NFS && ((t.c.TxTurn? || t.c.NfTurn? || t.c.FlushTx?) ==> t.c.i == i)
  {
  }

  lemma BaseTakes(e: Env, n: Net, c: Call)
    requires CallOk(e, n, c)
    ensures var m := Base(e, n, c);
            |m.nfs| == |n.nfs| && m.ports == n.ports && m.bufs == n.bufs && m.portBufs == n.portBufs && m.txBuf == n.txBuf &&
            forall i :: 0 <= i < |n.nfs| ==>
              |m.nfs[i].rxQ| <= |n.nfs[i].rxQ| && m.nfs[i].rxQ == n.nfs[i].rxQ[|n.nfs[i].rxQ| - |m.nfs[i].rxQ|..] &&
              |m.nfs[i].txQ| <= |n.nfs[i].txQ| && m.nfs[i].txQ == n.nfs[i].txQ[|n.nfs[i].txQ| - |m.nfs[i].txQ|..] &&
              m.nfs[i].stats == n.nfs[i].stats
  {
    hide Readable, BatchOk;
  }

  lemma GrownLanes(m: Net, r: Net, i: nat)
    requires Tracks(m, r) && Outbound.Leaves(m, r, i)
    ensures |m.nfs| == |r.nfs| == MAX_NFS && |m.ports| == |r.ports|
    ensures forall j :: 0 <= j < MAX_NFS ==> |m.nfs[j].rxQ| <= |r.nfs[j].rxQ| && |m.nfs[j].txQ| <= |r.nfs[j].txQ|
    ensures forall k :: 0 <= k < |m.ports| ==> |m.ports[k].sent| <= |r.ports[k].sent|
  {
    hide IsSub;
    forall j | 0 <= j < MAX_NFS
      ensures |m.nfs[j].rxQ| <= |r.nfs[j].rxQ| && |m.nfs[j].txQ| <= |r.nfs[j].txQ|
    {
      assert TracksAt(m.nfs[j], m.bufs[j], m.routed[j], r.nfs[j], r.bufs[j], r.routed[j]);
      if j != i {
        assert Outbound.SameRing(m.nfs[j], r.nfs[j]);
      }
    }
  }

  /** The state after the step. */
  function Act(w: World, t: Step): (r: World)
    requires StepOk(w, t)
    ensures Tagged(r) && |r.owns| == |w.owns|
  {
    Grows(w, t);
    var n := View(w, t.o);
    var m, r := Base(t.e, n, t.c), Do(t.e, n, t.c);
    World(r.metas, r.nfs, r.ports, r.nic, r.freed, r.lost, w.owns[t.o := Owned(w.owns[t.o].owner, r)],
          Retag(w.rxTags, RxQs(n.nfs), RxQs(m.nfs), RxQs(r.nfs), t.o),
          Retag(w.txTags, TxQs(n.nfs), TxQs(m.nfs), TxQs(r.nfs), t.o),
          Retag(w.sentTags, Sents(n.ports), Sents(m.ports), Sents(r.ports), t.o))
  }

  // ---------- Conservation ----------

  function Sum(ds: seq<int>): int {
    if ds == [] then 0 else Sum(ds[..|ds| - 1]) + ds[|ds| - 1]
  }

  lemma {:induction false} SumOfUpdate(ds: seq<int>, o: nat, d: int)
    requires o < |ds|
    ensures Sum(ds[o := d]) == Sum(ds) - ds[o] + d
  {
    var front, last, now := ds[..|ds| - 1], |ds| - 1, ds[o := d];
    if o == last {
      assert now[..last] == front;
    } else {
      assert now[..last] == front[o := d];
      SumOfUpdate(front, o, d);
    }
  }

  /** How often packet x is in the buffers of an owner. */
  function OwnCopies(own: Own, x: Pkt): nat {
    Times(own.txBuf, x) + Tally(own.bufs, x) + Tally(own.portBufs, x)
  }

  function OwnsCopies(owns: seq<Own>, x: Pkt): seq<int> {
    seq(|owns|, o requires 0 <= o < |owns| => OwnCopies(owns[o], x))
  }

  /** How often packet x is in what all share: free, forgotten, in a ring, or sent. */
  function SharedCopies(w: World, x: Pkt): nat {
    Times(w.freed, x) + Times(w.lost, x) + InRings(w.nfs, x) + Tally(Sents(w.ports), x)
  }

  /** How often packet x is anywhere. */
  function Everywhere(w: World, x: Pkt): int {
    SharedCopies(w, x) + Sum(OwnsCopies(w.owns, x))
  }

  lemma ViewCopies(w: World, o: nat, x: Pkt)
    requires o < |w.owns|
    ensures Copies(View(w, o), x) == SharedCopies(w, x) + OwnCopies(w.owns[o], x)
  {
    hide Times, Tally, InRings;
  }

  /** After a step each packet is in as many places as before and handed in. */
  lemma ActConserves(w: World, t: Step, x: Pkt)
    requires StepOk(w, t)
    ensures Everywhere(Act(w, t), x) == Everywhere(w, x) + Handed(t.c, x)
  {
    hide Do, Base, Copies, SharedCopies, OwnCopies, CallOk, Retag, Handed;
    var n, v := View(w, t.o), Act(w, t);
    DoConserves(t.e, n, t.c, x);
    ViewCopies(w, t.o, x);
    assert View(v, t.o) == Do(t.e, n, t.c);
    ViewCopies(v, t.o, x);
    assert OwnsCopies(v.owns, x) == OwnsCopies(w.owns, x)[t.o := OwnCopies(v.owns[t.o], x)];
    SumOfUpdate(OwnsCopies(w.owns, x), t.o, OwnCopies(v.owns[t.o], x));
  }
}

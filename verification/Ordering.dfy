/**
 Order and accounts when many owners share the rings and ports: each owner's packets stay in the
 order it put them in, and the statistics account for what all owners put in together.
 */
module Ordering {
  import opened Registry
  import opened Bags
  import opened Lanes
  import opened PacketPath
  import opened Delivery
  import opened Outbound
  import opened PacketCalls
  import opened Owners

  ghost predicate Formed(w: World) {
    Tagged(w) &&
    forall o :: 0 <= o < |w.owns| ==>
      |w.owns[o].bufs| == |w.owns[o].routed| == MAX_NFS && |w.owns[o].portBufs| == |w.owns[o].posted| == |w.ports| &&
      (w.owns[o].owner.Instance? ==> w.owns[o].owner.i < MAX_NFS)
  }

  /** What owner o has in receive ring i and its buffer for it is what it routed there, in order,
      with packets left out. */
  ghost predicate RxOrdered(w: World, o: nat, i: nat)
    requires Formed(w) && o < |w.owns| && i < MAX_NFS
  {
    InOrder(w.nfs[i].rxQ, w.rxTags[i], o, w.owns[o].bufs[i], w.owns[o].routed[i])
  }

  /** The same for what port k sent and owner o's buffer for it. */
  ghost predicate PortOrdered(w: World, o: nat, k: nat)
    requires Formed(w) && o < |w.owns| && k < |w.ports|
  {
    InOrder(w.ports[k].sent, w.sentTags[k], o, w.owns[o].portBufs[k], w.owns[o].posted[k])
  }

  /** The same for the tx ring and the tx buffer of an instance. */
  ghost predicate TxOrdered(w: World, o: nat)
    requires Formed(w) && o < |w.owns|
  {
    var own := w.owns[o];
    own.owner.Instance? ==> InOrder(w.nfs[own.owner.i].txQ, w.txTags[own.owner.i], o, own.txBuf, own.returned)
  }

  ghost predicate Ordered(w: World) {
    Formed(w) && forall o :: 0 <= o < |w.owns| ==>
      TxOrdered(w, o) &&
      (forall i :: 0 <= i < MAX_NFS ==> RxOrdered(w, o, i)) && (forall k :: 0 <= k < |w.ports| ==> PortOrdered(w, o, k))
  }

  /** One queue through a step of owner o: what it had loses packets at the head and gains some
      of o at the end. */
  lemma OwnQueue(q0: seq<Pkt>, q1: seq<Pkt>, q2: seq<Pkt>, tags: seq<nat>, o: nat,
                 b0: seq<Pkt>, r0: seq<Pkt>, b: seq<Pkt>, r: seq<Pkt>)
    requires InOrder(q0, tags, o, b0, r0) && |q1| <= |q0| && q1 == q0[|q0| - |q1|..] && Lane(q1, b0, r0, q2, b, r)
    ensures InOrder(q2, tags[|q0| - |q1|..] + Repeat(o, |q2| - |q1|), o, b, r)
  {
    hide IsSub, Mine;
    TakenInOrder(q0, tags, o, b0, r0, |q0| - |q1|);
    CallInOrder(q1, tags[|q0| - |q1|..], o, b0, r0, q2, b, r);
  }

  lemma OtherQueue(q0: seq<Pkt>, q1: seq<Pkt>, q2: seq<Pkt>, tags: seq<nat>, o: nat, u: nat, b: seq<Pkt>, r: seq<Pkt>)
    requires InOrder(q0, tags, u, b, r) && |q1| <= |q0| && q1 == q0[|q0| - |q1|..] && u != o
    requires |q1| <= |q2| && q2[..|q1|] == q1
    ensures InOrder(q2, tags[|q0| - |q1|..] + Repeat(o, |q2| - |q1|), u, b, r)
  {
    hide IsSub, Mine;
    TakenInOrder(q0, tags, u, b, r, |q0| - |q1|);
    OthersInOrder(q1, tags[|q0| - |q1|..], o, u, b, r, q2);
  }

  lemma ActFormed(w: World, t: Step)
    requires Formed(w) && StepOk(w, t)
    ensures Formed(Act(w, t)) && |Act(w, t).ports| == |w.ports|
  {
    hide Do, CallOk, Tagged, IsSub;
    Grows(w, t);
    DoSized(t.e, View(w, t.o), t.c);
  }

  lemma DoSized(e: Env, n: Net, c: Call)
    requires CallOk(e, n, c) && |n.posted| == |n.portBufs| == |n.ports|
    ensures var r := Do(e, n, c);
            |r.bufs| == |r.routed| == MAX_NFS && |r.portBufs| == |r.posted| == |r.ports|
  {
    hide Readable, BatchOk, ArrivalsOk;
  }

  /** The view of owner o after a step, and the queues as the lanes see them. */
  lemma StepLanes(w: World, t: Step)
    requires Formed(w) && StepOk(w, t)
    ensures var n, m, v := View(w, t.o), Base(t.e, View(w, t.o), t.c), Act(w, t);
            var r, own, own' := Do(t.e, n, t.c), w.owns[t.o], v.owns[t.o];
            |m.nfs| == |r.nfs| == MAX_NFS && |m.ports| == |r.ports| == |w.ports| && v.nfs == r.nfs && v.ports == r.ports &&
            |own'.bufs| == |own'.routed| == MAX_NFS && |own'.portBufs| == |own'.posted| == |w.ports| &&
            (forall i :: 0 <= i < MAX_NFS ==>
               TracksAt(m.nfs[i], own.bufs[i], own.routed[i], r.nfs[i], own'.bufs[i], own'.routed[i])) &&
            (forall k :: 0 <= k < |w.ports| ==>
               PortTracksAt(m.ports[k], own.portBufs[k], own.posted[k], r.ports[k], own'.portBufs[k], own'.posted[k])) &&
            var i := AtWork(own.owner, t.c);
            i < MAX_NFS && RingTracksAt(m.nfs[i], own.txBuf, own.returned, r.nfs[i], own'.txBuf, own'.returned) &&
            forall j :: 0 <= j < MAX_NFS && j != i ==> SameRing(m.nfs[j], r.nfs[j])
  {
    hide Do, CallOk, TracksAt, PortTracksAt, RingTracksAt, SameRing;
    var n := View(w, t.o);
    Grows(w, t);
    ActFormed(w, t);
    WorksFor(w, t);
    BaseSized(t.e, n, t.c);
    BaseTakes(t.e, n, t.c);
    DoTracks(t.e, n, t.c);
    DoLeaves(t.e, n, t.c, AtWork(w.owns[t.o].owner, t.c));
  }

  /** Receive ring i through the step. */
  lemma RxLane(w: World, t: Step, i: nat)
    requires Formed(w) && StepOk(w, t) && i < MAX_NFS
    ensures var v, q0, q1 := Act(w, t), w.nfs[i].rxQ, Base(t.e, View(w, t.o), t.c).nfs[i].rxQ;
            |Base(t.e, View(w, t.o), t.c).nfs| == |v.nfs| == MAX_NFS &&
            |q1| <= |q0| && q1 == q0[|q0| - |q1|..] && |q1| <= |v.nfs[i].rxQ| &&
            v.rxTags[i] == w.rxTags[i][|q0| - |q1|..] + Repeat(t.o, |v.nfs[i].rxQ| - |q1|) &&
            |v.owns[t.o].bufs| == |v.owns[t.o].routed| == MAX_NFS &&
            TracksAt(Base(t.e, View(w, t.o), t.c).nfs[i], w.owns[t.o].bufs[i], w.owns[t.o].routed[i],
                     v.nfs[i], v.owns[t.o].bufs[i], v.owns[t.o].routed[i]) &&
            Base(t.e, View(w, t.o), t.c).nfs[i].stats == w.nfs[i].stats
  {
    hide Do, CallOk, TracksAt, PortTracksAt, RingTracksAt, SameRing, Base;
    Grows(w, t);
    StepLanes(w, t);
    BaseTakes(t.e, View(w, t.o), t.c);
  }

  lemma PortLane(w: World, t: Step, k: nat)
    requires Formed(w) && StepOk(w, t) && k < |w.ports|
    ensures var v, q0 := Act(w, t), w.ports[k].sent;
            |v.ports| == |w.ports| && |q0| <= |v.ports[k].sent| &&
            v.sentTags[k] == w.sentTags[k][|q0| - |q0|..] + Repeat(t.o, |v.ports[k].sent| - |q0|) &&
            |v.owns[t.o].portBufs| == |v.owns[t.o].posted| == |w.ports| &&
            PortTracksAt(w.ports[k], w.owns[t.o].portBufs[k], w.owns[t.o].posted[k],
                         v.ports[k], v.owns[t.o].portBufs[k], v.owns[t.o].posted[k])
  {
    hide Do, CallOk, TracksAt, PortTracksAt, RingTracksAt, SameRing, Base, Tagged;
    Grows(w, t);
    StepLanes(w, t);
    BaseTakes(t.e, View(w, t.o), t.c);
  }

  /** Tx ring j through the step: a lane of the owner at work for j, else untouched at its end. */
  lemma TxLane(w: World, t: Step, j: nat)
    requires Formed(w) && StepOk(w, t) && j < MAX_NFS
    ensures var v, m := Act(w, t), Base(t.e, View(w, t.o), t.c).nfs[j];
            var q0, q1 := w.nfs[j].txQ, m.txQ;
            |Base(t.e, View(w, t.o), t.c).nfs| == |v.nfs| == MAX_NFS &&
            |q1| <= |q0| && q1 == q0[|q0| - |q1|..] && |q1| <= |v.nfs[j].txQ| &&
            v.txTags[j] == w.txTags[j][|q0| - |q1|..] + Repeat(t.o, |v.nfs[j].txQ| - |q1|) &&
            m.stats == w.nfs[j].stats &&
            if j == AtWork(w.owns[t.o].owner, t.c)
            then RingTracksAt(m, w.owns[t.o].txBuf, w.owns[t.o].returned, v.nfs[j], v.owns[t.o].txBuf, v.owns[t.o].returned)
            else SameRing(m, v.nfs[j])
  {
    hide Do, CallOk, TracksAt, PortTracksAt, RingTracksAt, Base;
    Grows(w, t);
    StepLanes(w, t);
    BaseTakes(t.e, View(w, t.o), t.c);
  }

  lemma OthersKept(w: World, t: Step)
    requires StepOk(w, t)
    ensures var v := Act(w, t);
            |v.owns| == |w.owns| && v.owns[t.o].owner == w.owns[t.o].owner &&
            forall o :: 0 <= o < |w.owns| && o != t.o ==> v.owns[o] == w.owns[o]
  {
    hide Do, CallOk, Base, Tagged;
  }

  lemma OrderedParts(w: World, o: nat)
    requires Ordered(w) && o < |w.owns|
    ensures Formed(w) && TxOrdered(w, o)
    ensures (forall i :: 0 <= i < MAX_NFS ==> RxOrdered(w, o, i)) && (forall k :: 0 <= k < |w.ports| ==> PortOrdered(w, o, k))
  {
    hide Formed, RxOrdered, PortOrdered, TxOrdered;
  }

  lemma RxStep(w: World, t: Step, o: nat, i: nat)
    requires Ordered(w) && StepOk(w, t) && o < |w.owns| && i < MAX_NFS
    ensures Formed(Act(w, t)) && RxOrdered(Act(w, t), o, i)
  {
    hide Act, Base, CallOk, Ordered, InOrder, IsSub, Lane;
    OrderedParts(w, o);
    ActFormed(w, t);
    RxLane(w, t, i);
    OthersKept(w, t);
    var q0, q1, v := w.nfs[i].rxQ, Base(t.e, View(w, t.o), t.c).nfs[i].rxQ, Act(w, t);
    assert RxOrdered(w, o, i);
    if o == t.o {
      OwnQueue(q0, q1, v.nfs[i].rxQ, w.rxTags[i], o, w.owns[o].bufs[i], w.owns[o].routed[i],
               v.owns[o].bufs[i], v.owns[o].routed[i]);
    } else {
      LaneGrows(q1, w.owns[t.o].bufs[i], w.owns[t.o].routed[i], v.nfs[i].rxQ, v.owns[t.o].bufs[i], v.owns[t.o].routed[i]);
      OtherQueue(q0, q1, v.nfs[i].rxQ, w.rxTags[i], t.o, o, w.owns[o].bufs[i], w.owns[o].routed[i]);
    }
  }

  lemma LaneGrows(q0: seq<Pkt>, b0: seq<Pkt>, r0: seq<Pkt>, q: seq<Pkt>, b: seq<Pkt>, r: seq<Pkt>)
    requires Lane(q0, b0, r0, q, b, r)
    ensures |q0| <= |q| && q[..|q0|] == q0
  {
  }

  lemma PortStep(w: World, t: Step, o: nat, k: nat)
    requires Ordered(w) && StepOk(w, t) && o < |w.owns| && k < |w.ports|
    ensures Formed(Act(w, t)) && |Act(w, t).ports| == |w.ports| && PortOrdered(Act(w, t), o, k)
  {
    hide Act, Base, CallOk, Ordered, InOrder, IsSub, Lane;
    OrderedParts(w, o);
    ActFormed(w, t);
    PortLane(w, t, k);
    OthersKept(w, t);
    var q0, v := w.ports[k].sent, Act(w, t);
    assert PortOrdered(w, o, k);
    if o == t.o {
      OwnQueue(q0, q0, v.ports[k].sent, w.sentTags[k], o, w.owns[o].portBufs[k], w.owns[o].posted[k],
               v.owns[o].portBufs[k], v.owns[o].posted[k]);
    } else {
      LaneGrows(q0, w.owns[t.o].portBufs[k], w.owns[t.o].posted[k], v.ports[k].sent,
                v.owns[t.o].portBufs[k], v.owns[t.o].posted[k]);
      OtherQueue(q0, q0, v.ports[k].sent, w.sentTags[k], t.o, o, w.owns[o].portBufs[k], w.owns[o].posted[k]);
    }
  }

  lemma TxStep(w: World, t: Step, o: nat)
    requires Ordered(w) && StepOk(w, t) && o < |w.owns|
    ensures Formed(Act(w, t)) && TxOrdered(Act(w, t), o)
  {
    hide Act, Base, CallOk, Ordered, InOrder, IsSub, Lane;
    OrderedParts(w, o);
    ActFormed(w, t);
    OthersKept(w, t);
    var own, v := w.owns[o], Act(w, t);
    if own.owner.Instance? {
      var j := own.owner.i;
      InstanceInRange(w, o);
      TxLane(w, t, j);
      var q0, q1 := w.nfs[j].txQ, Base(t.e, View(w, t.o), t.c).nfs[j].txQ;
      if o == t.o {
        OwnAtWork(w, t);
        OwnQueue(q0, q1, v.nfs[j].txQ, w.txTags[j], o, own.txBuf, own.returned, v.owns[o].txBuf, v.owns[o].returned);
      } else {
        if j == AtWork(w.owns[t.o].owner, t.c) {
          LaneGrows(q1, w.owns[t.o].txBuf, w.owns[t.o].returned, v.nfs[j].txQ, v.owns[t.o].txBuf, v.owns[t.o].returned);
        }
        assert v.nfs[j].txQ[..|q1|] == q1;
        OtherQueue(q0, q1, v.nfs[j].txQ, w.txTags[j], t.o, o, own.txBuf, own.returned);
      }
    }
  }

  lemma InstanceInRange(w: World, o: nat)
    requires Formed(w) && o < |w.owns| && w.owns[o].owner.Instance?
    ensures w.owns[o].owner.i < MAX_NFS
  {
  }

  lemma OwnAtWork(w: World, t: Step)
    requires Formed(w) && StepOk(w, t) && w.owns[t.o].owner.Instance?
    ensures AtWork(w.owns[t.o].owner, t.c) == w.owns[t.o].owner.i
  {
    hide CallOk;
  }

  /** Every step of every owner keeps the order of every owner's packets. */
  lemma ActOrdered(w: World, t: Step)
    requires Ordered(w) && StepOk(w, t)
    ensures Ordered(Act(w, t))
  {
    hide RxOrdered, PortOrdered, TxOrdered, Formed, StepOk, Act;
    var v := Act(w, t);
    ActFormed(w, t);
    forall o | 0 <= o < |v.owns|
      ensures TxOrdered(v, o) && (forall i :: 0 <= i < MAX_NFS ==> RxOrdered(v, o, i)) &&
              (forall k :: 0 <= k < |v.ports| ==> PortOrdered(v, o, k))
    {
      TxStep(w, t, o);
      forall i | 0 <= i < MAX_NFS
        ensures RxOrdered(v, o, i)
      {
        RxStep(w, t, o, i);
      }
      forall k | 0 <= k < |v.ports|
        ensures PortOrdered(v, o, k)
      {
        PortStep(w, t, o, k);
      }
    }
  }
}

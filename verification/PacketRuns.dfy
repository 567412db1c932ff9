/**
 Runs of the whole system: the RX threads, the TX threads and the instances take their steps in
 any order, each with the manager's state and the NIC as they are then.
 */
module PacketRuns {
  import opened Registry
  import opened Bags
  import opened PacketPath
  import opened Conservation
  import opened PacketCalls
  import opened Owners
  import opened Ordering
  import opened Accounts

  ghost predicate IsRun(worlds: seq<World>, steps: seq<Step>) {
    |worlds| == |steps| + 1 && forall k :: 0 <= k < |steps| ==> Takes(worlds[k], steps[k], worlds[k + 1])
  }

  ghost predicate Takes(w: World, t: Step, v: World) {
    StepOk(w, t) && v == Act(w, t)
  }

  /** The system main and the starting instances build: nothing has been received yet. */
  ghost predicate Start(w: World) {
    Formed(w) && (forall i :: 0 <= i < MAX_NFS ==> w.nfs[i].rxQ == w.nfs[i].txQ == []) &&
    (forall k :: 0 <= k < |w.ports| ==> w.ports[k].sent == []) &&
    forall o :: 0 <= o < |w.owns| ==> EmptyOwn(w.owns[o])
  }

  ghost predicate EmptyOwn(own: Own) {
    own.txBuf == own.returned == [] && (forall i :: 0 <= i < |own.bufs| ==> own.bufs[i] == []) &&
    (forall k :: 0 <= k < |own.portBufs| ==> own.portBufs[k] == [])
  }

  lemma StartOrdered(w: World)
    requires Start(w)
    ensures Ordered(w) && ManagersQuiet(w)
  {
  }

  function HandedIn(steps: seq<Step>, x: Pkt): nat {
    if steps == [] then 0 else HandedIn(steps[..|steps| - 1], x) + Handed(steps[|steps| - 1].c, x)
  }

  /** In every state of a run each packet is in as many places as at the start and handed in. */
  lemma {:induction false} RunConserves(worlds: seq<World>, steps: seq<Step>, x: Pkt)
    requires IsRun(worlds, steps)
    ensures Everywhere(worlds[|steps|], x) == Everywhere(worlds[0], x) + HandedIn(steps, x)
    decreases |steps|
  {
    hide Everywhere, StepOk, Act, Handed;
    if steps != [] {
      var k := |steps| - 1;
      RunConserves(worlds[..|steps|], steps[..k], x);
      assert Takes(worlds[k], steps[k], worlds[k + 1]);
      ActConserves(worlds[k], steps[k], x);
    }
  }

  /** In every state of a run the packets of every owner are in the order it put them in. */
  lemma {:induction false} RunOrdered(worlds: seq<World>, steps: seq<Step>)
    requires IsRun(worlds, steps) && Ordered(worlds[0])
    ensures Ordered(worlds[|steps|])
    decreases |steps|
  {
    hide Ordered, StepOk, Act;
    if steps != [] {
      var k := |steps| - 1;
      RunOrdered(worlds[..|steps|], steps[..k]);
      assert Takes(worlds[k], steps[k], worlds[k + 1]);
      ActOrdered(worlds[k], steps[k]);
    }
  }

  /** The statistics of w account for the same packets as those of v. */
  ghost predicate SameAccounts(v: World, w: World) {
    Formed(v) && Formed(w) && |w.ports| == |v.ports| &&
    (forall i :: 0 <= i < MAX_NFS ==>
       RxBalance(w, i) == RxBalance(v, i) && TxBalance(w, i) == TxBalance(v, i) &&
       w.nfs[i].stats.actDrop == v.nfs[i].stats.actDrop) &&
    (forall k :: 0 <= k < |v.ports| ==>
       PortBalance(w, k) == PortBalance(v, k) && w.ports[k].tx - |w.ports[k].sent| == v.ports[k].tx - |v.ports[k].sent|)
  }

  lemma ActAccounts(w: World, t: Step)
    requires Formed(w) && StepOk(w, t) && ManagersQuiet(w)
    ensures SameAccounts(w, Act(w, t)) && ManagersQuiet(Act(w, t))
  {
    hide Act, StepOk, Formed, RxBalance, TxBalance, PortBalance, ManagersQuiet;
    var v := Act(w, t);
    ActFormed(w, t);
    ActQuiet(w, t);
    FormedSizes(w);
    FormedSizes(v);
    forall i | 0 <= i < MAX_NFS
      ensures RxBalance(v, i) == RxBalance(w, i) && TxBalance(v, i) == TxBalance(w, i) &&
              v.nfs[i].stats.actDrop == w.nfs[i].stats.actDrop
    {
      ActRxBalance(w, t, i);
      ActTxBalance(w, t, i);
    }
    forall k | 0 <= k < |w.ports|
      ensures PortBalance(v, k) == PortBalance(w, k) && v.ports[k].tx - |v.ports[k].sent| == w.ports[k].tx - |w.ports[k].sent|
    {
      ActPortBalance(w, t, k);
    }
  }

  lemma FormedSizes(w: World)
    requires Formed(w)
    ensures |w.nfs| == MAX_NFS
  {
  }

  /** Over a run the statistics stay in step with what the owners put in, and act_drop stays. */
  lemma {:induction false} RunAccounts(worlds: seq<World>, steps: seq<Step>)
    requires IsRun(worlds, steps) && Formed(worlds[0]) && ManagersQuiet(worlds[0])
    ensures SameAccounts(worlds[0], worlds[|steps|]) && ManagersQuiet(worlds[|steps|])
    decreases |steps|
  {
    hide StepOk, Act, Formed, RxBalance, TxBalance, PortBalance, ManagersQuiet;
    FormedSizes(worlds[0]);
    if steps != [] {
      var k := |steps| - 1;
      RunAccounts(worlds[..|steps|], steps[..k]);
      assert Takes(worlds[k], steps[k], worlds[k + 1]);
      ActAccounts(worlds[k], steps[k]);
      FormedSizes(worlds[k]);
      FormedSizes(worlds[k + 1]);
    }
  }

  // ---------- Losses ----------

  /** The batch of the step, if it has one, meets the guards of module Losses. */
  ghost predicate StepKept(w: World, t: Step)
    requires StepOk(w, t)
  {
    CallKept(t.e, View(w, t.o), t.c)
  }

  /** Over a run no packet is lost just when every transmit batch in it meets the guards. */
  lemma {:induction false} RunLosesIff(worlds: seq<World>, steps: seq<Step>)
    requires IsRun(worlds, steps)
    ensures worlds[0].lost <= worlds[|steps|].lost
    ensures worlds[|steps|].lost == worlds[0].lost <==>
            forall k :: 0 <= k < |steps| ==> StepOk(worlds[k], steps[k]) && StepKept(worlds[k], steps[k])
    decreases |steps|
  {
    hide StepOk, Act, StepKept;
    if steps != [] {
      var k := |steps| - 1;
      RunLosesIff(worlds[..|steps|], steps[..k]);
      assert Takes(worlds[k], steps[k], worlds[k + 1]);
      ActLosesIff(worlds[k], steps[k]);
    }
  }

  lemma ActLosesIff(w: World, t: Step)
    requires StepOk(w, t)
    ensures w.lost <= Act(w, t).lost
    ensures Act(w, t).lost == w.lost <==> StepKept(w, t)
  {
    hide Do, CallOk, CallKept, Tagged;
    DoLosesIff(t.e, View(w, t.o), t.c);
  }

  // ---------- One place ----------

  function OwnPlaces(owns: seq<Own>): seq<seq<Pkt>> {
    if owns == [] then []
    else
      var own := owns[|owns| - 1];
      OwnPlaces(owns[..|owns| - 1]) + ([own.txBuf] + own.bufs + own.portBufs)
  }

  /** All places a packet can be in that is not lost. */
  function Places(w: World): seq<seq<Pkt>> {
    [w.freed] + RxQs(w.nfs) + TxQs(w.nfs) + Sents(w.ports) + OwnPlaces(w.owns)
  }

  lemma {:induction false} TallyOfSum(a: seq<seq<nat>>, b: seq<seq<nat>>, x: nat)
    ensures Tally(a + b, x) == Tally(a, x) + Tally(b, x)
  {
    hide Times;
    if b == [] {
      assert a + b == a;
    } else {
      assert (a + b)[..|a + b| - 1] == a + b[..|b| - 1];
      TallyOfSum(a, b[..|b| - 1], x);
    }
  }

  lemma TallyOfOne(q: seq<Pkt>, x: Pkt)
    ensures Tally([q], x) == Times(q, x)
  {
    var none: seq<seq<Pkt>> := [];
    assert [q][..0] == none && Tally([q], x) == Tally(none, x) + Times(q, x);
  }

  lemma {:induction false} OwnPlacesCounted(owns: seq<Own>, x: Pkt)
    ensures Tally(OwnPlaces(owns), x) == Sum(OwnsCopies(owns, x))
  {
    hide Times, Tally;
    if owns == [] {
      TallyEmpty(x);
    } else {
      var front, own := owns[..|owns| - 1], owns[|owns| - 1];
      OwnPlacesCounted(front, x);
      assert OwnsCopies(owns, x)[..|owns| - 1] == OwnsCopies(front, x);
      TallyOfSum(OwnPlaces(front), [own.txBuf] + own.bufs + own.portBufs, x);
      TallyOfSum([own.txBuf] + own.bufs, own.portBufs, x);
      TallyOfSum([own.txBuf], own.bufs, x);
      TallyOfOne(own.txBuf, x);
    }
  }

  lemma TallyEmpty(x: Pkt)
    ensures Tally([], x) == 0
  {
  }

  lemma PlacesCounted(w: World, x: Pkt)
    ensures Everywhere(w, x) == Times(w.lost, x) + Tally(Places(w), x)
  {
    hide Times, Tally, RxQs, TxQs, Sents, OwnPlaces, OwnsCopies;
    var a, b, c := [w.freed], [w.freed] + RxQs(w.nfs), [w.freed] + RxQs(w.nfs) + TxQs(w.nfs);
    TallyOfOne(w.freed, x);
    TallyOfSum(a, RxQs(w.nfs), x);
    TallyOfSum(b, TxQs(w.nfs), x);
    TallyOfSum(c, Sents(w.ports), x);
    TallyOfSum(c + Sents(w.ports), OwnPlaces(w.owns), x);
    OwnPlacesCounted(w.owns, x);
  }

  lemma {:induction false} TallyNone(qs: seq<seq<nat>>, x: nat)
    ensures Tally(qs, x) == 0 <==> forall k :: 0 <= k < |qs| ==> x !in qs[k]
  {
    if qs != [] {
      var front := qs[..|qs| - 1];
      TallyNone(front, x);
      assert forall k :: 0 <= k < |front| ==> front[k] == qs[k];
    }
  }

  lemma {:induction false} TallyOne(qs: seq<seq<nat>>, x: nat) returns (k: nat)
    requires Tally(qs, x) == 1
    ensures k < |qs| && Times(qs[k], x) == 1
    ensures forall j :: 0 <= j < |qs| && j != k ==> x !in qs[j]
  {
    var front := qs[..|qs| - 1];
    TallyNone(front, x);
    if Tally(front, x) == 0 {
      k := |qs| - 1;
      assert forall j :: 0 <= j < |front| ==> front[j] == qs[j];
    } else {
      k := TallyOne(front, x);
      assert forall j :: 0 <= j < |front| ==> front[j] == qs[j];
    }
  }

  /** A packet that was handed in once is, after any run in which every transmit batch meets the
      guards, in exactly one place, once: freed, in a ring, sent, or in a buffer of one owner. */
  lemma OnePlace(worlds: seq<World>, steps: seq<Step>, x: Pkt) returns (k: nat)
    requires IsRun(worlds, steps)
    requires Everywhere(worlds[0], x) + HandedIn(steps, x) == 1 && x !in worlds[0].lost
    requires forall k :: 0 <= k < |steps| ==> StepOk(worlds[k], steps[k]) && StepKept(worlds[k], steps[k])
    ensures var places := Places(worlds[|steps|]);
            k < |places| && Times(places[k], x) == 1 && forall j :: 0 <= j < |places| && j != k ==> x !in places[j]
  {
    hide HandedIn, Places, Everywhere, Tally, StepOk, StepKept, Act;
    RunConserves(worlds, steps, x);
    RunLosesIff(worlds, steps);
    PlacesCounted(worlds[|steps|], x);
    k := TallyOne(Places(worlds[|steps|]), x);
  }
}

/**
 What the overload check leaves on every slot, said slot by slot.
 */
module Overload {
  import opened Registry
  import opened Lifecycle
  import opened Scale
  import opened ScaleThread
  import Runs

  /** The scale messages sent to instance j for the overloaded ones among the first n slots. */
  function Wakes(s: State, n: nat, j: nat): seq<ScaleMsg>
    requires Rated(s) && n <= MAX_NFS
  {
    if n == 0 then [] else Wakes(s, n - 1, j) + WakesOf(s, n - 1, j)
  }

  /** Overload marks and messages do not change what an overload calls for. */
  lemma SameAnswer(s: State, t: State, i: nat)
    requires Rated(s) && OnlyScaling(s, t) && i < MAX_NFS
    ensures Rated(t) && Overloaded(t, i) == Overloaded(s, i)
    ensures Overloaded(s, i) ==> WakeList(t, i) == WakeList(s, i) && NewInstances(t, i) == NewInstances(s, i)
    ensures forall j: nat :: WakesOf(t, i, j) == WakesOf(s, i, j)
  {
    hide BlockedIds, FirstOccupied;
    if Overloaded(s, i) {
      SameWakes(s, t, s.infos[s.nfs[i].info.value].typeId);
    }
  }

  /** The messages one overloaded instance m causes for instance i. */
  function WakesOf(s: State, m: nat, i: nat): seq<ScaleMsg>
    requires Rated(s) && m < MAX_NFS
  {
    if Overloaded(s, m) && i in WakeList(s, m) then [ScaleMsg(ScaleRun, i, 0)] else []
  }

  function OverloadStep(t: State, m: nat): (r: State)
    requires Rated(t) && m < MAX_NFS
    ensures Shape(r)
  {
    if Overloaded(t, m) then AnswerOverload(t, m) else t
  }

  lemma OneAnswer(t: State, m: nat, i: nat)
    requires Rated(t) && m < MAX_NFS && i < MAX_NFS
    ensures var slot := OverloadStep(t, m).nfs[i];
            slot.olFlag == (if i == m && Overloaded(t, m) then 1 else t.nfs[i].olFlag) &&
            slot.scaleNum == (if i == m && Overloaded(t, m) then NewInstances(t, m) else t.nfs[i].scaleNum) &&
            slot.scaleQ == t.nfs[i].scaleQ + WakesOf(t, m, i)
  {
    hide NewInstances, WakeList, Overloaded, PointersOk, Sent;
    assert t.nfs[i].scaleQ + [] == t.nfs[i].scaleQ;
    if Overloaded(t, m) {
      OverloadedRated(t, m);
      SentTo(t.nfs, WakeList(t, m), i);
    }
  }

  lemma SentTo(nfs: seq<Slot>, ids: seq<nat>, i: nat)
    requires i < |nfs|
    ensures var slot := Sent(nfs, ids)[i];
            slot.olFlag == nfs[i].olFlag && slot.scaleNum == nfs[i].scaleNum &&
            slot.scaleQ == nfs[i].scaleQ + if i in ids then [ScaleMsg(ScaleRun, i, 0)] else []
  {
    assert nfs[i].scaleQ + [] == nfs[i].scaleQ;
  }

  lemma {:induction false} AfterOverloads(s: State, n: nat, i: nat)
    requires Rated(s) && n <= MAX_NFS && i < MAX_NFS
    ensures var slot := Overloads(s, n).nfs[i];
            slot.olFlag == (if i < n && Overloaded(s, i) then 1 else s.nfs[i].olFlag) &&
            slot.scaleNum == (if i < n && Overloaded(s, i) then NewInstances(s, i) else s.nfs[i].scaleNum) &&
            slot.scaleQ == s.nfs[i].scaleQ + Wakes(s, n, i)
  {
    hide Overloaded, NewInstances, WakeList, WakesOf, OnlyScaling, OverloadStep, Overloads, PointersOk;
    var q := s.nfs[i].scaleQ;
    if n == 0 {
      NoOverloads(s);
      assert q + [] == q;
    } else {
      var t := Overloads(s, n - 1);
      AfterOverloads(s, n - 1, i);
      OverloadsNext(s, n - 1);
      SameAnswer(s, t, n - 1);
      OneAnswer(t, n - 1, i);
      assert (q + Wakes(s, n - 1, i)) + WakesOf(s, n - 1, i) == q + Wakes(s, n, i);
    }
  }

  lemma NoOverloads(s: State)
    requires Rated(s)
    ensures Overloads(s, 0) == s
  {
  }

  lemma OverloadsNext(s: State, n: nat)
    requires Rated(s) && n < MAX_NFS
    ensures Overloads(s, n + 1) == OverloadStep(Overloads(s, n), n)
  {
  }

  /** A slot whose receive ring is full and that carries no mark. */
  predicate NewlyFull(s: State, used: seq<nat>, i: nat)
    requires Shape(s) && PointersOk(s) && i < MAX_NFS == |used|
  {
    Valid(s, i) && used[i] == NF_RING_SIZE - 1 && s.nfs[i].olFlag == 0
  }

  lemma {:induction false} AfterFullRings(s: State, used: seq<nat>, n: nat, i: nat)
    requires Typed(s) && |used| == MAX_NFS && n <= MAX_NFS && i < MAX_NFS
    ensures var slot := FullRings(s, used, n).nfs[i];
            slot.olFlag == (if i < n && NewlyFull(s, used, i) then 1 else s.nfs[i].olFlag) &&
            slot.scaleNum == (if i < n && NewlyFull(s, used, i) && s.avail[s.infos[s.nfs[i].info.value].typeId] == 0
                              then Inc(s.nfs[i].scaleNum) else s.nfs[i].scaleNum) &&
            slot.scaleQ == s.nfs[i].scaleQ
  {
    hide FullRing, NewlyFull, PointersOk;
    if n > 0 {
      AfterFullRings(s, used, n - 1, i);
      AfterFullRings(s, used, n - 1, n - 1);
      OneFull(s, FullRings(s, used, n - 1), used, n - 1, i);
    }
  }

  lemma OneFull(s: State, t: State, used: seq<nat>, m: nat, i: nat)
    requires Typed(s) && Typed(t) && OnlyScaling(s, t) && m < MAX_NFS && i < MAX_NFS && |used| == MAX_NFS
    requires t.nfs[m].olFlag == s.nfs[m].olFlag && t.nfs[m].scaleNum == s.nfs[m].scaleNum
    ensures var slot := FullRing(t, m, used[m]).nfs[i];
            slot.olFlag == (if i == m && NewlyFull(s, used, m) then 1 else t.nfs[i].olFlag) &&
            slot.scaleNum == (if i == m && NewlyFull(s, used, m) && s.avail[s.infos[s.nfs[m].info.value].typeId] == 0
                              then Inc(s.nfs[m].scaleNum) else t.nfs[i].scaleNum) &&
            slot.scaleQ == t.nfs[i].scaleQ
  {
  }

  /** The check marks exactly the overloaded instances and those whose ring is full; it sets
      scale_num to the new instances an overload calls for, or one up for a full ring when none
      of the type is available; and it sends each instance one SCALE_RUN for every overloaded
      instance it is woken for. */
  lemma ChecksExactly(s: State, used: seq<nat>, i: nat)
    requires Rated(s) && |used| == MAX_NFS && i < MAX_NFS
    ensures var slot := FullRings(Overloads(s, MAX_NFS), used, MAX_NFS).nfs[i];
            slot.olFlag == (if Overloaded(s, i) || NewlyFull(s, used, i) then 1 else s.nfs[i].olFlag) &&
            slot.scaleNum == (if Overloaded(s, i) then NewInstances(s, i)
                              else if NewlyFull(s, used, i) && s.avail[s.infos[s.nfs[i].info.value].typeId] == 0
                              then Inc(s.nfs[i].scaleNum) else s.nfs[i].scaleNum) &&
            slot.scaleQ == s.nfs[i].scaleQ + Wakes(s, MAX_NFS, i)
  {
    hide Overloaded, NewInstances, WakeList, Overloads, FullRings, Wakes;
    AfterOverloads(s, MAX_NFS, i);
    AfterFullRings(Overloads(s, MAX_NFS), used, MAX_NFS, i);
  }

  // ---------- Division by the load limit ----------

  /** The numbers the check of the first n slots divides by. */
  function Divisors(s: State, n: nat): seq<nat>
    requires Typed(s) && n <= MAX_NFS
  {
    if n == 0 then []
    else Divisors(s, n - 1) + if Overloaded(s, n - 1) then [s.infos[s.nfs[n - 1].info.value].maxLoad] else []
  }

  lemma {:induction false} DividesBy(s: State, n: nat, d: nat)
    requires Typed(s) && n <= MAX_NFS
    ensures d in Divisors(s, n) <==>
            exists i: nat :: i < n && Overloaded(s, i) && s.infos[s.nfs[i].info.value].maxLoad == d
  {
    if n > 0 {
      DividesBy(s, n - 1, d);
    }
  }

  /** The check divides by zero just when a running instance with a service time has load limit
      zero: no load is below that limit. */
  lemma DividesByNoZeroIff(s: State)
    requires Typed(s)
    ensures 0 !in Divisors(s, MAX_NFS) <==> Rated(s)
  {
    DividesBy(s, MAX_NFS, 0);
    forall i: nat | i < MAX_NFS && Valid(s, i)
      ensures var info := s.infos[s.nfs[i].info.value]; info.srvTime != 0 && info.maxLoad == 0 ==> Overloaded(s, i)
    {
    }
  }

  /** Every record in use has a load limit. */
  ghost predicate Limited(s: State) {
    Shape(s) && forall h: nat :: h < MAX_NFS && s.procs[h] != Free ==> s.infos[h].maxLoad > 0
  }

  lemma StepLimited(s: State, e: Event)
    requires Inv(s) && Limited(s) && Enabled(s, e) && (e.TakeRecord? ==> e.maxLoad > 0)
    ensures Limited(Apply(s, e))
  {
    hide Inv, HandleNext, Safe;
    if e.Handle? {
      HandleLimited(s);
    } else {
      InvParts(s);
    }
  }

  /** The handlers take no record from the pool and leave the load limits alone. */
  lemma HandleLimited(s: State)
    requires Limited(s) && s.ring != [] && Safe(s, s.ring[0])
    ensures Limited(HandleNext(s))
  {
    hide RemoveFromRow, NextUnused, ValidFlags;
  }

  /** In a run in which no program starts with load limit zero, the check never divides by zero. */
  lemma {:induction false} RunRated(states: seq<State>, events: seq<Event>, k: nat)
    requires Runs.IsRun(states, events) && k < |states|
    requires forall j :: 0 <= j < |events| && events[j].TakeRecord? ==> events[j].maxLoad > 0
    ensures Limited(states[k]) && Rated(states[k])
  {
    hide Inv, Enabled, Apply;
    Runs.RunKeepsInv(states, events, k);
    if k > 0 {
      RunRated(states, events, k - 1);
      Runs.RunKeepsInv(states, events, k - 1);
      assert Runs.CanStep(states[k - 1], events[k - 1], states[k]);
      StepLimited(states[k - 1], events[k - 1]);
    }
    LimitedRated(states[k]);
  }

  lemma LimitedRated(s: State)
    requires Inv(s) && Limited(s)
    ensures Rated(s)
  {
    hide Local, Counters;
    InvTyped(s);
  }
}

/**
 The scale thread: waking blocked instances, splitting the answer to an overload between
 blocked and new instances, and choosing the instance to block.
 */
module Scale {
  import opened Registry
  import opened TypeMap
  import opened Lifecycle
  import opened SharedMemory
  import Runs

  /** The slot's instance is of the type and its record says that it is blocked. */
  predicate IsBlocked(s: State, y: nat, i: nat)
    requires Shape(s) && PointersOk(s) && i < MAX_NFS
  {
    s.nfs[i].info.Some? &&
    s.infos[s.nfs[i].info.value].typeId == y && s.infos[s.nfs[i].info.value].status == Blocked
  }

  /** The blocked instances of the type among the first n slots, in slot order. */
  function BlockedIds(s: State, y: nat, n: nat): seq<nat>
    requires Shape(s) && PointersOk(s) && n <= MAX_NFS
  {
    if n == 0 then []
    else BlockedIds(s, y, n - 1) + if IsBlocked(s, y, n - 1) then [n - 1] else []
  }

  /** The scale message goes to the ring of every instance listed. */
  function SendAll(s: State, ids: seq<nat>): State
    requires Shape(s)
  {
    s.(nfs := Sent(s.nfs, ids))
  }

  function Sent(nfs: seq<Slot>, ids: seq<nat>): (r: seq<Slot>)
    ensures |r| == |nfs|
  {
    seq(|nfs|, i requires 0 <= i < |nfs| => if i in ids then Told(nfs[i], i) else nfs[i])
  }

  function Told(slot: Slot, i: nat): Slot {
    slot.(scaleQ := slot.scaleQ + [ScaleMsg(ScaleRun, i, 0)])
  }

  function Min(a: nat, b: nat): nat {
    if a <= b then a else b
  }

  /** The lowest occupied slot. */
  function FirstOccupied(s: State, from: nat): (i: nat)
    requires Shape(s) && from <= MAX_NFS
    ensures from <= i <= MAX_NFS
    ensures i < MAX_NFS ==> s.nfs[i].info.Some?
    ensures forall j :: from <= j < i ==> s.nfs[j].info == None
    decreases MAX_NFS - from
  {
    if from == MAX_NFS || s.nfs[from].info.Some? then from else FirstOccupied(s, from + 1)
  }

  /** The instances d2sc_scale_block_to_run wakes: the first nfNum blocked ones.  A request for
      none wakes none or all, because the count is compared only after it has grown. */
  function Woken(s: State, y: nat, nfNum: nat): seq<nat>
    requires Shape(s) && PointersOk(s)
  {
    var ids := BlockedIds(s, y, MAX_NFS);
    if nfNum > 0 then ids[..Min(nfNum, |ids|)]
    else
      var i := FirstOccupied(s, 0);
      if i < MAX_NFS && IsBlocked(s, y, i) then ids else []
  }

  lemma {:induction false} BlockedIdsAre(s: State, y: nat, n: nat)
    requires Shape(s) && PointersOk(s) && n <= MAX_NFS
    ensures Distinct(BlockedIds(s, y, n))
    ensures forall i: nat :: i in BlockedIds(s, y, n) <==> i < n && IsBlocked(s, y, i)
  {
    if n > 0 {
      BlockedIdsAre(s, y, n - 1);
    }
  }

  lemma {:induction false} BlockedIdsAscend(s: State, y: nat, n: nat)
    requires Shape(s) && PointersOk(s) && n <= MAX_NFS
    ensures forall j, k :: 0 <= j < k < |BlockedIds(s, y, n)| ==> BlockedIds(s, y, n)[j] < BlockedIds(s, y, n)[k]
    ensures forall k :: 0 <= k < |BlockedIds(s, y, n)| ==> BlockedIds(s, y, n)[k] < n
  {
    hide IsBlocked;
    if n > 0 {
      BlockedIdsAscend(s, y, n - 1);
    }
  }

  /** Exactly the requested number of blocked instances is woken, those in the lowest slots, or all
      there are; a request for none is met exactly when the lowest occupied slot is not a blocked one
      of the type. */
  lemma WokenCount(s: State, y: nat, nfNum: nat)
    requires Shape(s) && PointersOk(s)
    ensures |Woken(s, y, nfNum)| == Min(nfNum, |BlockedIds(s, y, MAX_NFS)|) <==>
            nfNum > 0 || FirstOccupied(s, 0) == MAX_NFS || !IsBlocked(s, y, FirstOccupied(s, 0))
    ensures Distinct(Woken(s, y, nfNum))
    ensures forall i :: i in Woken(s, y, nfNum) ==> i < MAX_NFS && IsBlocked(s, y, i)
    ensures forall i, j: nat :: i in Woken(s, y, nfNum) && j < i && IsBlocked(s, y, j) ==> j in Woken(s, y, nfNum)
  {
    BlockedIdsAre(s, y, MAX_NFS);
    BlockedIdsAscend(s, y, MAX_NFS);
    var ids := BlockedIds(s, y, MAX_NFS);
    var i := FirstOccupied(s, 0);
    if nfNum == 0 && i < MAX_NFS && IsBlocked(s, y, i) {
      assert i in ids;
    }
    assert forall j :: j in ids[..Min(nfNum, |ids|)] ==> j in ids;
  }

  /** In a reachable state the slots found are the registered instances that are blocked. */
  lemma BlockedIdsAreMembers(s: State, y: nat)
    requires Inv(s)
    ensures |BlockedIds(s, y, MAX_NFS)| == |Runs.BlockedOf(s, y)|
  {
    hide Counters, Local;
    BlockedIdsAre(s, y, MAX_NFS);
    SizeOfDistinct(BlockedIds(s, y, MAX_NFS), Runs.BlockedOf(s, y));
  }

  lemma SentMore(nfs: seq<Slot>, ids: seq<nat>, i: nat)
    requires i < |nfs| && i !in ids
    ensures Sent(nfs, ids + [i]) == Sent(nfs, ids)[i := Told(nfs[i], i)]
    ensures Sent(nfs, ids)[i] == nfs[i]
    ensures Sent(nfs, []) == nfs
  {
    hide Told;
  }

  /** The blocked instances of more slots begin with those of fewer. */
  lemma {:induction false} BlockedIdsPrefix(s: State, y: nat, n: nat, k: nat)
    requires Shape(s) && PointersOk(s) && n <= k <= MAX_NFS
    ensures BlockedIds(s, y, n) <= BlockedIds(s, y, k)
    decreases k
  {
    hide IsBlocked;
    if n < k {
      BlockedIdsPrefix(s, y, n, k - 1);
    }
  }

  /** When the loop stops after slot i the right instances have been woken. */
  lemma WokenAt(s: State, y: nat, nfNum: nat, i: nat)
    requires Shape(s) && PointersOk(s) && i < MAX_NFS && s.nfs[i].info.Some?
    requires |BlockedIds(s, y, i + 1)| == nfNum
    requires nfNum == 0 ==> i <= FirstOccupied(s, 0)
    ensures BlockedIds(s, y, i + 1) == Woken(s, y, nfNum)
  {
    hide IsBlocked;
    BlockedIdsPrefix(s, y, i + 1, MAX_NFS);
    if nfNum == 0 {
      assert FirstOccupied(s, 0) == i;
      BlockedIdsAre(s, y, i + 1);
      assert !IsBlocked(s, y, i);
    }
  }

  /** When the loop runs through all slots, all blocked instances have been woken. */
  lemma WokenAtEnd(s: State, y: nat, nfNum: nat)
    requires Shape(s) && PointersOk(s)
    requires nfNum > 0 ==> |BlockedIds(s, y, MAX_NFS)| < nfNum
    requires nfNum == 0 && |BlockedIds(s, y, MAX_NFS)| == 0 ==> FirstOccupied(s, 0) == MAX_NFS
    requires nfNum == 0 && |BlockedIds(s, y, MAX_NFS)| > 0 ==> IsBlocked(s, y, FirstOccupied(s, 0) % MAX_NFS)
    ensures BlockedIds(s, y, MAX_NFS) == Woken(s, y, nfNum)
  {
    hide IsBlocked, BlockedIds, FirstOccupied;
    var ids, i := BlockedIds(s, y, MAX_NFS), FirstOccupied(s, 0);
    if nfNum == 0 && i == MAX_NFS {
      NoneBlocked(s, y);
    }
  }

  lemma NoneBlocked(s: State, y: nat)
    requires Shape(s) && PointersOk(s) && FirstOccupied(s, 0) == MAX_NFS
    ensures BlockedIds(s, y, MAX_NFS) == []
  {
    hide BlockedIds, FirstOccupied;
    BlockedIdsAre(s, y, MAX_NFS);
    assert forall i: nat :: i < MAX_NFS ==> !IsBlocked(s, y, i);
    SizeOfDistinct(BlockedIds(s, y, MAX_NFS), {});
  }

  /** Sends SCALE_RUN to instance i if it is a blocked one of the type. */
  method WakeIfBlocked(m: Shared, dstType: nat, i: nat) returns (woken: bool)
    requires m.WellFormed() && PointersOk(m.Abs()) && i < MAX_NFS && m.nfs[i].info.Some?
    modifies m.nfs
    ensures m.WellFormed() && woken == IsBlocked(old(m.Abs()), dstType, i)
    ensures m.nfs[..] == if woken then old(m.nfs[..])[i := Told(old(m.nfs[i]), i)] else old(m.nfs[..])
  {
    woken := m.infos[m.nfs[i].info.value].typeId == dstType && m.infos[m.nfs[i].info.value].status == Blocked;
    if woken {
      m.nfs[i] := m.nfs[i].(scaleQ := m.nfs[i].scaleQ + [ScaleMsg(ScaleRun, i, 0)]);
    }
  }

  lemma SentKeepsPointers(s: State, ids: seq<nat>)
    requires Shape(s) && PointersOk(s)
    ensures var t := SendAll(s, ids);
            Shape(t) && PointersOk(t) && forall i :: 0 <= i < MAX_NFS ==> t.nfs[i].info == s.nfs[i].info
  {
  }

  lemma BlockedIdsStep(s: State, y: nat, i: nat)
    requires Shape(s) && PointersOk(s) && i < MAX_NFS
    ensures BlockedIds(s, y, 0) == []
    ensures BlockedIds(s, y, i + 1) == if IsBlocked(s, y, i) then BlockedIds(s, y, i) + [i] else BlockedIds(s, y, i)
    ensures i <= FirstOccupied(s, 0) && s.nfs[i].info == None ==> i < FirstOccupied(s, 0)
    ensures i <= FirstOccupied(s, 0) && s.nfs[i].info.Some? ==> i == FirstOccupied(s, 0)
  {
    hide IsBlocked;
  }

  /** The work on one slot: what has been sent so far grows with the instances met. */
  method Visit(m: Shared, dstType: nat, i: nat, ghost s: State) returns (woken: bool)
    requires m.WellFormed() && Shape(s) && PointersOk(s) && i < MAX_NFS
    requires m.Abs() == SendAll(s, BlockedIds(s, dstType, i)) && m.nfs[i].info.Some?
    modifies m.nfs
    ensures m.WellFormed() && m.Abs() == SendAll(s, BlockedIds(s, dstType, i + 1))
    ensures woken == IsBlocked(s, dstType, i)
  {
    hide Told, IsBlocked, Sent;
    BlockedIdsAre(s, dstType, i);
    SentMore(s.nfs, BlockedIds(s, dstType, i), i);
    SentKeepsPointers(s, BlockedIds(s, dstType, i));
    SameBlocked(s, m.Abs(), dstType, i);
    assert m.nfs[i] == m.nfs[..][i];
    woken := WakeIfBlocked(m, dstType, i);
    assert BlockedIds(s, dstType, i + 1) ==
           if woken then BlockedIds(s, dstType, i) + [i] else BlockedIds(s, dstType, i);
  }

  /** d2sc_scale_block_to_run */
  method BlockToRun(m: Shared, dstType: nat, nfNum: nat)
    requires m.WellFormed() && PointersOk(m.Abs())
    modifies m.nfs
    ensures m.WellFormed() && m.Abs() == SendAll(old(m.Abs()), Woken(old(m.Abs()), dstType, nfNum))
  {
    hide IsBlocked, Sent, Woken, BlockedIds, PointersOk, FirstOccupied;
    var counter := 0;
    ghost var s := m.Abs();
    SentMore(s.nfs, [], 0);
    BlockedIdsStep(s, dstType, 0);
    for i := 0 to MAX_NFS
      invariant m.WellFormed() && m.Abs() == SendAll(s, BlockedIds(s, dstType, i))
      invariant counter == |BlockedIds(s, dstType, i)|
      invariant nfNum > 0 ==> counter < nfNum
      invariant nfNum == 0 && counter == 0 ==> i <= FirstOccupied(s, 0)
      invariant nfNum == 0 && counter > 0 ==> IsBlocked(s, dstType, FirstOccupied(s, 0) % MAX_NFS)
    {
      SentKeepsPointers(s, BlockedIds(s, dstType, i));
      BlockedIdsStep(s, dstType, i);
      assert m.nfs[i].info == m.Abs().nfs[i].info == s.nfs[i].info;
      if m.nfs[i].info == None {
        NoneIsNotBlocked(s, dstType, i);
        continue;
      }
      var woken := Visit(m, dstType, i, s);
      if woken {
        counter := counter + 1;
      }
      if counter == nfNum {
        WokenAt(s, dstType, nfNum, i);
        return;
      }
    }
    WokenAtEnd(s, dstType, nfNum);
  }

  lemma NoneIsNotBlocked(s: State, y: nat, i: nat)
    requires Shape(s) && PointersOk(s) && i < MAX_NFS && s.nfs[i].info == None
    ensures !IsBlocked(s, y, i)
  {
  }

  lemma SameBlocked(s: State, t: State, y: nat, i: nat)
    requires Shape(s) && PointersOk(s) && Shape(t) && PointersOk(t) && i < MAX_NFS
    requires t.nfs[i] == s.nfs[i] && t.infos == s.infos
    ensures IsBlocked(s, y, i) == IsBlocked(t, y, i)
  {
  }

  // ---------- Overload ----------

  function Load(s: State, i: nat): nat
    requires Shape(s) && PointersOk(s) && i < MAX_NFS && s.nfs[i].info.Some?
  {
    s.nfs[i].pktRate * s.infos[s.nfs[i].info.value].srvTime
  }

  predicate Overloaded(s: State, i: nat)
    requires Shape(s) && PointersOk(s) && i < MAX_NFS
  {
    Valid(s, i) &&
    var info := s.infos[s.nfs[i].info.value];
    info.srvTime != 0 && Load(s, i) >= info.maxLoad
  }

  /** 16-bit subtraction */
  function Sub16(a: nat, b: nat): nat {
    (a - b) % 65536
  }

  /** How many instances the load of an overloaded instance calls for. */
  function Needed(s: State, i: nat): nat
    requires Shape(s) && PointersOk(s) && i < MAX_NFS && s.nfs[i].info.Some?
    requires s.infos[s.nfs[i].info.value].maxLoad > 0
  {
    Load(s, i) / s.infos[s.nfs[i].info.value].maxLoad % 65536
  }

  function BlockedCount(s: State, y: nat): nat
    requires Shape(s) && y < MAX_NTS
  {
    Sub16(s.num[y], s.avail[y])
  }

  /** The blocked instances woken for an overloaded instance. */
  function WakeList(s: State, i: nat): seq<nat>
    requires Shape(s) && PointersOk(s) && i < MAX_NFS && s.nfs[i].info.Some?
    requires var info := s.infos[s.nfs[i].info.value]; info.maxLoad > 0 && info.typeId < MAX_NTS
  {
    var y := s.infos[s.nfs[i].info.value].typeId;
    if Needed(s, i) <= BlockedCount(s, y) then Woken(s, y, Needed(s, i))
    else if BlockedCount(s, y) > 0 then Woken(s, y, BlockedCount(s, y))
    else []
  }

  /** The new instances asked for. */
  function NewInstances(s: State, i: nat): nat
    requires Shape(s) && PointersOk(s) && i < MAX_NFS && s.nfs[i].info.Some?
    requires var info := s.infos[s.nfs[i].info.value]; info.maxLoad > 0 && info.typeId < MAX_NTS
  {
    var y := s.infos[s.nfs[i].info.value].typeId;
    if Needed(s, i) <= BlockedCount(s, y) then 0 else Needed(s, i) - BlockedCount(s, y)
  }

  function SetOverload(s: State, i: nat, scaleNum: nat): State
    requires Shape(s) && i < MAX_NFS
  {
    s.(nfs := s.nfs[i := s.nfs[i].(olFlag := 1, scaleNum := scaleNum)])
  }

  function AnswerOverload(s: State, i: nat): State
    requires Shape(s) && PointersOk(s) && i < MAX_NFS && s.nfs[i].info.Some?
    requires var info := s.infos[s.nfs[i].info.value]; info.maxLoad > 0 && info.typeId < MAX_NTS
  {
    SetOverload(SendAll(s, WakeList(s, i)), i, NewInstances(s, i))
  }

  /** Woken and new instances together are load / max_load, just when that number fits 16 bits
      and as many records say blocked as the counters promise for the request. */
  lemma OverloadSplit(s: State, i: nat)
    requires Shape(s) && PointersOk(s) && i < MAX_NFS && Overloaded(s, i)
    requires var info := s.infos[s.nfs[i].info.value]; info.maxLoad > 0 && info.typeId < MAX_NTS
    ensures var info := s.infos[s.nfs[i].info.value];
            |WakeList(s, i)| + NewInstances(s, i) == Load(s, i) / info.maxLoad <==>
            Load(s, i) / info.maxLoad < 65536 &&
            |BlockedIds(s, info.typeId, MAX_NFS)| >= Min(Needed(s, i), BlockedCount(s, info.typeId))
  {
    hide BlockedIds, FirstOccupied, IsBlocked, Load;
    var info := s.infos[s.nfs[i].info.value];
    AtLeastOne(Load(s, i), info.maxLoad);
    WokenCount(s, info.typeId, Needed(s, i));
    WokenCount(s, info.typeId, BlockedCount(s, info.typeId));
    BlockedIdsShort(s, info.typeId, MAX_NFS);
  }

  lemma {:induction false} BlockedIdsShort(s: State, y: nat, n: nat)
    requires Shape(s) && PointersOk(s) && n <= MAX_NFS
    ensures |BlockedIds(s, y, n)| <= n
  {
    hide IsBlocked;
    if n > 0 {
      BlockedIdsShort(s, y, n - 1);
    }
  }

  /** An instance is overloaded just when its load calls for at least one whole instance. */
  lemma OverloadedIff(s: State, i: nat)
    requires Shape(s) && PointersOk(s) && i < MAX_NFS && Valid(s, i) && s.infos[s.nfs[i].info.value].maxLoad > 0
    ensures var info := s.infos[s.nfs[i].info.value];
            Overloaded(s, i) <==> info.srvTime != 0 && s.nfs[i].pktRate * info.srvTime / info.maxLoad >= 1
  {
    var info := s.infos[s.nfs[i].info.value];
    if Load(s, i) >= info.maxLoad {
      AtLeastOne(Load(s, i), info.maxLoad);
    } else {
      LessThanOne(Load(s, i), info.maxLoad);
    }
  }

  lemma LessThanOne(load: nat, maxLoad: nat)
    requires load < maxLoad
    ensures load / maxLoad == 0
  {
  }

  lemma AtLeastOne(load: nat, maxLoad: nat)
    requires maxLoad > 0 && load >= maxLoad
    ensures load / maxLoad >= 1
  {
  }

  /** In a settled state the split is exact just when the number fits 16 bits. */
  lemma SettledSplit(s: State, i: nat)
    requires Inv(s) && s.ring == [] && i < MAX_NFS && Overloaded(s, i)
    requires s.infos[s.nfs[i].info.value].maxLoad > 0
    ensures var info := s.infos[s.nfs[i].info.value];
            info.typeId < MAX_NTS &&
            (|WakeList(s, i)| + NewInstances(s, i) == Load(s, i) / info.maxLoad <==> Load(s, i) / info.maxLoad < 65536) &&
            (Needed(s, i) > 0 ==> |WakeList(s, i)| == Min(Needed(s, i), |Runs.Closed(s, info.typeId)|))
  {
    hide Counters, Local, Load, BlockedIds, IsBlocked, Runs.Closed, Runs.BlockedOf, FirstOccupied;
    var info := s.infos[s.nfs[i].info.value];
    var y := info.typeId;
    Runs.SettledCounts(s, y);
    Runs.CountersAgree(s, y);
    BlockedIdsAreMembers(s, y);
    OverloadSplit(s, i);
    WokenCount(s, y, Needed(s, i));
    WokenCount(s, y, BlockedCount(s, y));
  }
}

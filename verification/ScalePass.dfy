/**
 The scale thread as it updates the shared memory: every function of the thread, and one
 pass of its loop.
 */
module ScalePass {
  import opened Registry
  import opened SharedMemory
  import opened Scale
  import opened ScaleThread
  import opened ScaleSteps
  import opened PassSteps
  import Master

  // ---------- Tests and searches ----------

  method IsOverloaded(m: Shared, i: nat) returns (over: bool)
    requires m.WellFormed() && PointersOk(m.Abs()) && i < MAX_NFS
    ensures over == Overloaded(m.Abs(), i)
    ensures over <==> m.nfs[i].info.Some? && var info := m.infos[m.nfs[i].info.value];
                      info.status == Running && info.srvTime != 0 && m.nfs[i].pktRate * info.srvTime >= info.maxLoad
  {
    var valid := Master.IsValid(m, i);
    if !valid || m.infos[m.nfs[i].info.value].srvTime == 0 {
      return false;
    }
    var load := m.nfs[i].pktRate * m.infos[m.nfs[i].info.value].srvTime;
    return load >= m.infos[m.nfs[i].info.value].maxLoad;
  }

  method IsCounted(m: Shared, y: nat, i: nat) returns (counted: bool)
    requires m.WellFormed() && PointersOk(m.Abs()) && i < MAX_NFS
    ensures counted == Counted(m.Abs(), y, i)
    ensures counted <==> m.nfs[i].info.Some? && var info := m.infos[m.nfs[i].info.value];
                         info.status == Running && info.srvTime != 0 && info.typeId == y
  {
    var valid := Master.IsValid(m, i);
    if !valid || m.infos[m.nfs[i].info.value].srvTime == 0 {
      return false;
    }
    return m.infos[m.nfs[i].info.value].typeId == y;
  }

  /** The second loop of d2sc_scale_check_overload for one slot. */
  method MarkFull(m: Shared, i: nat, used: nat)
    requires m.WellFormed() && Typed(m.Abs()) && i < MAX_NFS
    modifies m.nfs
    ensures m.WellFormed() && m.Abs() == FullRing(old(m.Abs()), i, used)
  {
    var valid := Master.IsValid(m, i);
    if !valid {
      return;
    }
    var y := m.infos[m.nfs[i].info.value].typeId;
    if used == NF_RING_SIZE - 1 && m.nfs[i].olFlag == 0 {
      m.nfs[i] := m.nfs[i].(olFlag := 1);
      if m.avail[y] == 0 {
        m.nfs[i] := m.nfs[i].(scaleNum := Inc(m.nfs[i].scaleNum));
      }
    }
  }

  /** The search for an instance to block, from the end of the row. */
  method FindRunning(m: Shared, y: nat) returns (nfId: nat)
    requires m.WellFormed() && PointersOk(m.Abs()) && y < MAX_NTS && m.num[y] <= MAX_NFS_PER_NT
    requires forall k :: 0 <= k < m.num[y] ==> m.Abs().nts[y][k] < MAX_NFS
    requires LastRunning(m.Abs(), y, m.num[y]).Some?
    ensures Some(nfId) == LastRunning(m.Abs(), y, m.num[y])
  {
    var ntNum := m.num[y];
    while true
      invariant ntNum <= m.num[y]
      invariant LastRunning(m.Abs(), y, ntNum) == LastRunning(m.Abs(), y, m.num[y])
      decreases ntNum
    {
      nfId := m.nts[y, ntNum - 1];
      assert nfId == m.Abs().nts[y][ntNum - 1];
      var valid := Master.IsValid(m, nfId);
      if valid {
        return;
      }
      ntNum := ntNum - 1;
    }
  }

  lemma LoadOfNext(s: State, y: nat, i: nat, stale: nat)
    requires Shape(s) && PointersOk(s) && i < MAX_NFS
    ensures LoadOf(s, y, 0, stale) == (0, stale)
    ensures var rest := LoadOf(s, y, i, stale);
            LoadOf(s, y, i + 1, stale) ==
            if Counted(s, y, i) then ((rest.0 + Load(s, i)) % 65536, s.infos[s.nfs[i].info.value].maxLoad) else rest
  {
  }

  /** The state of the scale thread: its view of the shared memory, up_signal, and the static
      counter of d2sc_scale_check_load. */
  class Scaler {
    const m: Shared
    var upSignal: nat
    var cnter: nat

    constructor (m: Shared)
      ensures this.m == m && upSignal == 0 && cnter == 0
    {
      this.m := m;
      upSignal, cnter := 0, 0;
    }

    /** d2sc_scale_check_overload; used holds the fill of the receive rings. */
    method CheckOverload(used: seq<nat>)
      requires m.WellFormed() && Rated(m.Abs()) && |used| == MAX_NFS
      modifies m.nfs
      ensures m.WellFormed() && m.Abs() == FullRings(Overloads(old(m.Abs()), MAX_NFS), used, MAX_NFS)
    {
      hide AnswerOverload, Overloaded;
      ghost var s := m.Abs();
      for i := 0 to MAX_NFS
        invariant m.WellFormed() && m.Abs() == Overloads(s, i)
      {
        var over := IsOverloaded(m, i);
        if over {
          OverloadedRated(m.Abs(), i);
          assert m.nfs[i] == m.Abs().nfs[i] && m.infos[m.nfs[i].info.value] == m.Abs().infos[m.nfs[i].info.value];
          AnswerSlot(m, i);
        }
      }
      ghost var t := m.Abs();
      for i := 0 to MAX_NFS
        invariant m.WellFormed() && m.Abs() == FullRings(t, used, i)
      {
        MarkFull(m, i, used[i]);
      }
    }

    /** d2sc_scale_up_signal */
    method CheckUpSignal()
      requires m.WellFormed() && PointersOk(m.Abs())
      modifies this
      ensures upSignal == if UpSignal(m.Abs()) then 1 else 0
      ensures cnter == old(cnter)
    {
      for i := 0 to MAX_NFS
        invariant forall j: nat :: j < i ==> !(Valid(m.Abs(), j) && m.Abs().nfs[j].olFlag == 1)
        invariant cnter == old(cnter)
      {
        var valid := Master.IsValid(m, i);
        if valid && m.nfs[i].olFlag == 1 {
          upSignal := 1;
          assert Valid(m.Abs(), i) && m.Abs().nfs[i].olFlag == 1;
          return;
        }
      }
      upSignal := 0;
    }

    /** The loop over d2sc_scale_up_execute. */
    method SendUpMessages()
      requires m.WellFormed() && PointersOk(m.Abs())
      modifies m.nfs
      ensures m.WellFormed() && m.Abs() == UpMessages(old(m.Abs()))
    {
      for i := 0 to MAX_NFS
        invariant m.WellFormed() && forall j :: i <= j < MAX_NFS ==> m.nfs[j] == old(m.nfs[j])
        invariant forall j :: 0 <= j < i ==> m.nfs[j] == UpMessage(old(m.Abs()), j)
      {
        assert Valid(m.Abs(), i) == Valid(old(m.Abs()), i);
        var valid := Master.IsValid(m, i);
        if valid && m.nfs[i].scaleNum != 0 {
          m.nfs[i] := Post(m.nfs[i], ScaleUp, i, m.nfs[i].scaleNum);
        }
      }
    }

    /** The loop over d2sc_scale_block_execute. */
    method SendBlockMessages()
      requires m.WellFormed() && PointersOk(m.Abs())
      modifies m.nfs
      ensures m.WellFormed() && m.Abs() == BlockMessages(old(m.Abs()))
    {
      for i := 0 to MAX_NFS
        invariant m.WellFormed() && forall j :: i <= j < MAX_NFS ==> m.nfs[j] == old(m.nfs[j])
        invariant forall j :: 0 <= j < i ==> m.nfs[j] == BlockMessage(old(m.Abs()), j)
      {
        assert Valid(m.Abs(), i) == Valid(old(m.Abs()), i);
        var valid := Master.IsValid(m, i);
        if valid && m.nfs[i].bkFlag == 1 {
          BlockExecute(i);
        }
      }
    }

    /** d2sc_scale_block_execute with a block message */
    method BlockExecute(i: nat)
      requires m.WellFormed() && i < MAX_NFS
      modifies m.nfs
      ensures m.WellFormed()
      ensures m.nfs[..] == if old(m.nfs[i].bkFlag) == 1
                           then old(m.nfs[..])[i := Post(old(m.nfs[i]), ScaleBlock, i, 0)] else old(m.nfs[..])
    {
      if m.nfs[i].bkFlag != 1 {
        return;
      }
      m.nfs[i] := Post(m.nfs[i], ScaleBlock, i, 0);
    }

    /** d2sc_scale_run_parent */
    method RunParent(dstType: nat)
      requires m.WellFormed() && PointersOk(m.Abs())
      modifies m.nfs
      ensures m.WellFormed() && m.Abs() == SendAll(old(m.Abs()), Woken(old(m.Abs()), dstType, 1))
    {
      hide IsBlocked, Sent, BlockedIds, PointersOk, FirstOccupied, Told;
      ghost var s := m.Abs();
      BlockedIdsStep(s, dstType, 0);
      for i := 0 to MAX_NFS
        invariant m.WellFormed() && m.Abs() == s && BlockedIds(s, dstType, i) == []
      {
        BlockedIdsStep(s, dstType, i);
        assert m.nfs[i] == s.nfs[i];
        if m.nfs[i].info == None {
          NoneIsNotBlocked(s, dstType, i);
          continue;
        }
        SentMore(s.nfs, [], i);
        assert SendAll(s, []) == s;
        var woken := Visit(m, dstType, i, s);
        if woken {
          WokenAt(s, dstType, 1, i);
          return;
        }
      }
      WokenAtEnd(s, dstType, 1);
      SentMore(s.nfs, [], 0);
    }

    /** d2sc_scale_check_load for a type with available instances; stale is the load limit left
        on the stack when no instance of the type is counted. */
    method CheckTypeLoad(y: nat, stale: nat)
      requires m.WellFormed() && Rowed(m.Abs()) && y < MAX_NTS && m.num[y] > 0 && m.avail[y] > 0
      requires Searches(m.Abs(), y, cnter, stale) ==> Choice(m.Abs(), y).Some?
      modifies this`cnter, m.nfs
      ensures m.WellFormed() && upSignal == old(upSignal)
      ensures m.Abs() == TypeStep(old(m.Abs()), y, old(cnter), stale)
      ensures cnter == CounterAfter(old(m.Abs()), y, old(cnter), stale)
    {
      hide LoadOf, LastRunning;
      ghost var s := m.Abs();
      assert RowOk(s, y);
      var load, maxLoad := 0, stale;
      LoadOfNext(s, y, 0, stale);
      for i := 0 to MAX_NFS
        invariant m.Abs() == s && cnter == old(cnter) && (load, maxLoad) == LoadOf(s, y, i, stale)
      {
        LoadOfNext(s, y, i, stale);
        var counted := IsCounted(m, y, i);
        if counted {
          maxLoad := m.infos[m.nfs[i].info.value].maxLoad;
          load := (load + m.nfs[i].pktRate * m.infos[m.nfs[i].info.value].srvTime) % 65536;
        }
      }
      var difLoad := (maxLoad * m.avail[y] - load) % 65536;
      if difLoad >= maxLoad && m.avail[y] > 1 {
        cnter := Next(cnter);
        if cnter == CHECK_INTERVAL {
          var nfId := FindRunning(m, y);
          m.nfs[nfId] := m.nfs[nfId].(bkFlag := 1);
          BlockExecute(nfId);
          assert m.Abs() == BlockNow(s, nfId);
          cnter := 0;
        }
      }
    }

    /** The wake-up of a parent or the load check, for one type. */
    method CheckType(y: nat, stale: nat)
      requires m.WellFormed() && Rowed(m.Abs()) && y < MAX_NTS
      requires Searches(m.Abs(), y, cnter, stale) ==> Choice(m.Abs(), y).Some?
      modifies this`cnter, m.nfs
      ensures m.WellFormed() && m.Abs() == TypeStep(old(m.Abs()), y, old(cnter), stale)
      ensures cnter == CounterAfter(old(m.Abs()), y, old(cnter), stale)
    {
      hide Woken, Spare, Choice, RowOk;
      if m.num[y] == 0 {
        return;
      }
      if m.avail[y] == 0 {
        RunParent(y);
      } else {
        CheckTypeLoad(y, stale);
      }
    }

    /** One pass of the loop of scale_thread_main, from any state in which the searches for an
        instance to block end and the overload check divides by no zero. */
    method Pass(used: seq<nat>, numNts: nat, stale: nat)
      requires m.WellFormed() && Rowed(m.Abs()) && Rated(m.Abs()) && |used| == MAX_NFS && numNts <= MAX_NTS
      requires SearchesEnd(m.Abs(), numNts, cnter, stale)
      modifies this, m.nfs
      ensures m.WellFormed() && AllTold(m.Abs())
      ensures m.Abs() == AfterPass(old(m.Abs()), used, numNts, old(cnter), stale)
      ensures cnter == CounterAt(old(m.Abs()), numNts, old(cnter), stale)
    {
      hide FullRings, Overloads, UpMessages, BlockMessages, UpSignal, TypeSteps, CounterAt, AllTold, RowOk;
      ghost var s, c := m.Abs(), cnter;
      CheckOverload(used);
      CheckUpSignal();
      if upSignal == 1 {
        SendUpMessages();
      }
      SendBlockMessages();
      ghost var t := m.Abs();
      assert t == Announced(s, used);
      SamePicks(s, t, numNts, c, stale);
      CheckTypes(numNts, stale);
      SameCounter(s, t, numNts, c, stale);
    }

    /** The loop over the types. */
    method CheckTypes(numNts: nat, stale: nat)
      requires m.WellFormed() && Rowed(m.Abs()) && numNts <= MAX_NTS && SearchesEnd(m.Abs(), numNts, cnter, stale)
      modifies this`cnter, m.nfs
      ensures m.WellFormed() && m.Abs() == TypeSteps(old(m.Abs()), numNts, old(cnter), stale)
      ensures cnter == CounterAt(old(m.Abs()), numNts, old(cnter), stale)
    {
      hide TypeSteps, TypeStep, CounterAt, CounterAfter, Searches, Choice, RowOk, AllTold, OnlyScaling;
      ghost var s, c := m.Abs(), cnter;
      NoTypes(s, c, stale);
      for y := 0 to numNts
        invariant m.WellFormed() && SearchesEnd(s, y, c, stale)
        invariant m.Abs() == TypeSteps(s, y, c, stale) && cnter == CounterAt(s, y, c, stale)
      {
        UptoType(s, y, numNts, c, stale);
        CheckType(y, stale);
      }
    }
  }

  lemma NoTypes(s: State, cnter: nat, stale: nat)
    requires Rowed(s)
    ensures SearchesEnd(s, 0, cnter, stale) && TypeSteps(s, 0, cnter, stale) == s && CounterAt(s, 0, cnter, stale) == cnter
  {
  }

  /** The next type may be checked, and takes the pass one type further. */
  lemma UptoType(s: State, y: nat, n: nat, cnter: nat, stale: nat)
    requires Rowed(s) && y < n <= MAX_NTS && SearchesEnd(s, n, cnter, stale)
    ensures SearchesEnd(s, y, cnter, stale) && SearchesEnd(s, y + 1, cnter, stale)
    ensures var t, c := TypeSteps(s, y, cnter, stale), CounterOf(s, y, cnter, stale);
            Rowed(t) && (Searches(t, y, c, stale) ==> Choice(t, y).Some?) &&
            TypeSteps(s, y + 1, cnter, stale) == TypeStep(t, y, c, stale) &&
            CounterOf(s, y + 1, cnter, stale) == CounterAfter(t, y, c, stale)
  {
    hide TypeStep, Searches, Choice, RowOk, OnlyScaling, AllTold, CounterAfter;
    FewerSearches(s, y, cnter, stale);
    SameSearch(s, TypeSteps(s, y, cnter, stale), y, CounterAt(s, y, cnter, stale), stale);
  }
}

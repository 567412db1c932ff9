/**
 One pass of the scale thread: overload check, scale-up messages, block messages, and per
 type either the wake-up of a parent or the load check that picks an instance to block.
 */
module ScaleThread {
  import opened Registry
  import opened Lifecycle
  import opened SharedMemory
  import opened Scale
  import Router
  import Runs
  import Duplicates

  const NF_RING_SIZE: nat := 16384
  const CHECK_INTERVAL: nat := 5

  /** Running instances have a type with a row. */
  ghost predicate Typed(s: State) {
    Shape(s) && PointersOk(s) &&
    forall i: nat :: i < MAX_NFS && Valid(s, i) ==> s.infos[s.nfs[i].info.value].typeId < MAX_NTS
  }

  /** Those that have reported a service time have a load limit to divide by; module Overload
      says when that is so. */
  ghost predicate Rated(s: State) {
    Typed(s) &&
    forall i: nat :: i < MAX_NFS && Valid(s, i) && s.infos[s.nfs[i].info.value].srvTime != 0 ==>
      s.infos[s.nfs[i].info.value].maxLoad > 0
  }

  lemma InvTyped(s: State)
    requires Inv(s)
    ensures Typed(s)
  {
    hide Local, Counters;
  }

  /** Only overload marks and queues of scale messages differ. */
  ghost predicate OnlyScaling(s: State, t: State)
    requires Shape(s)
  {
    Shape(t) && t == s.(nfs := t.nfs) &&
    forall i :: 0 <= i < MAX_NFS ==>
      t.nfs[i].info == s.nfs[i].info && t.nfs[i].instId == s.nfs[i].instId &&
      t.nfs[i].bkFlag == s.nfs[i].bkFlag && t.nfs[i].pktRate == s.nfs[i].pktRate
  }

  lemma ScalingKeeps(s: State, t: State)
    requires Inv(s) && OnlyScaling(s, t)
    ensures Inv(t)
  {
    hide Linked, Local, Counters;
    SameProtocolKeeps(s, t);
  }

  // ---------- Overload check ----------

  /** The first loop of d2sc_scale_check_overload over the first n slots. */
  function Overloads(s: State, n: nat): (r: State)
    requires Rated(s) && n <= MAX_NFS
    ensures Rated(r) && OnlyScaling(s, r)
  {
    if n == 0 then s
    else
      var t := Overloads(s, n - 1);
      if Overloaded(t, n - 1) then AnswerScales(t, n - 1); AnswerOverload(t, n - 1) else t
  }

  lemma AnswerScales(s: State, i: nat)
    requires Rated(s) && i < MAX_NFS && Overloaded(s, i)
    ensures var t := AnswerOverload(s, i); OnlyScaling(s, t) && Rated(t)
  {
    hide WakeList, NewInstances, Load, Sent;
    SendScales(s, WakeList(s, i));
  }

  lemma SendScales(s: State, ids: seq<nat>)
    requires Rated(s)
    ensures OnlyScaling(s, SendAll(s, ids)) && Rated(SendAll(s, ids))
  {
  }

  /** A full receive ring marks an instance that is not marked yet. */
  function FullRing(s: State, i: nat, used: nat): (r: State)
    requires Typed(s) && i < MAX_NFS
    ensures Typed(r) && OnlyScaling(s, r)
  {
    if Valid(s, i) && used == NF_RING_SIZE - 1 && s.nfs[i].olFlag == 0 then
      var y := s.infos[s.nfs[i].info.value].typeId;
      SetOverload(s, i, if s.avail[y] == 0 then Inc(s.nfs[i].scaleNum) else s.nfs[i].scaleNum)
    else s
  }

  function FullRings(s: State, used: seq<nat>, n: nat): (r: State)
    requires Typed(s) && n <= MAX_NFS == |used|
    ensures Typed(r) && OnlyScaling(s, r)
  {
    if n == 0 then s else FullRing(FullRings(s, used, n - 1), n - 1, used[n - 1])
  }

  lemma OverloadedRated(s: State, i: nat)
    requires Rated(s) && i < MAX_NFS && Overloaded(s, i)
    ensures s.nfs[i].info.Some? &&
            var info := s.infos[s.nfs[i].info.value]; info.maxLoad > 0 && info.typeId < MAX_NTS
  {
  }

  method AnswerSlot(m: Shared, i: nat)
    requires m.WellFormed() && Typed(m.Abs()) && i < MAX_NFS && Overloaded(m.Abs(), i)
    requires m.infos[m.nfs[i].info.value].maxLoad > 0
    modifies m.nfs
    ensures m.WellFormed() && m.Abs() == AnswerOverload(old(m.Abs()), i)
  {
    hide Woken, BlockedIds, FirstOccupied, Sent;
    ghost var s := m.Abs();
    var info := m.infos[m.nfs[i].info.value];
    m.nfs[i] := m.nfs[i].(olFlag := 1);
    ghost var marked := m.Abs();
    MarkedWakes(s, marked, info.typeId, i);
    SentMore(marked.nfs, [], 0);
    var load := m.nfs[i].pktRate * info.srvTime;
    var scaleNfs := load / info.maxLoad % 65536;
    var blockNfs := Sub16(m.num[info.typeId], m.avail[info.typeId]);
    if scaleNfs <= blockNfs {
      BlockToRun(m, info.typeId, scaleNfs);
      MarkAndSend(s, i, Woken(s, info.typeId, scaleNfs), 0);
      m.nfs[i] := m.nfs[i].(scaleNum := 0);
    } else {
      if blockNfs > 0 {
        BlockToRun(m, info.typeId, blockNfs);
      }
      MarkAndSend(s, i, WakeList(s, i), scaleNfs - blockNfs);
      m.nfs[i] := m.nfs[i].(scaleNum := scaleNfs - blockNfs);
    }
  }

  lemma MarkedWakes(s: State, t: State, y: nat, i: nat)
    requires Shape(s) && PointersOk(s) && i < MAX_NFS
    requires t == s.(nfs := s.nfs[i := s.nfs[i].(olFlag := 1)])
    ensures Shape(t) && PointersOk(t) && forall k: nat :: Woken(t, y, k) == Woken(s, y, k)
  {
    hide BlockedIds, FirstOccupied;
    SameWakes(s, t, y);
  }

  lemma SameWakes(s: State, t: State, y: nat)
    requires Shape(s) && PointersOk(s) && OnlyScaling(s, t)
    ensures PointersOk(t) && BlockedIds(t, y, MAX_NFS) == BlockedIds(s, y, MAX_NFS)
    ensures FirstOccupied(t, 0) == FirstOccupied(s, 0)
    ensures forall i: nat :: i < MAX_NFS ==> IsBlocked(t, y, i) == IsBlocked(s, y, i)
  {
    hide BlockedIds, FirstOccupied;
    SameBlockedIds(s, t, y, MAX_NFS);
  }

  lemma {:induction false} SameBlockedIds(s: State, t: State, y: nat, n: nat)
    requires Shape(s) && PointersOk(s) && OnlyScaling(s, t) && n <= MAX_NFS
    ensures PointersOk(t) && BlockedIds(t, y, n) == BlockedIds(s, y, n)
  {
    if n > 0 {
      SameBlockedIds(s, t, y, n - 1);
    }
  }

  lemma MarkAndSend(s: State, i: nat, ids: seq<nat>, scaleNum: nat)
    requires Shape(s) && i < MAX_NFS
    ensures var t := SendAll(s.(nfs := s.nfs[i := s.nfs[i].(olFlag := 1)]), ids);
            t.(nfs := t.nfs[i := t.nfs[i].(scaleNum := scaleNum)]) == SetOverload(SendAll(s, ids), i, scaleNum)
  {
  }

  // ---------- Messages ----------

  function Post(slot: Slot, sig: ScaleSig, i: nat, scaleNum: nat): Slot {
    slot.(scaleQ := slot.scaleQ + [ScaleMsg(sig, i, scaleNum)])
  }

  /** The slot after the thread has looked at it: running instances with instances to start
      are told to, then running instances about to block are told again. */
  function UpMessage(s: State, i: nat): Slot
    requires Shape(s) && PointersOk(s) && i < MAX_NFS
  {
    if Valid(s, i) && s.nfs[i].scaleNum != 0 then Post(s.nfs[i], ScaleUp, i, s.nfs[i].scaleNum) else s.nfs[i]
  }

  function BlockMessage(s: State, i: nat): Slot
    requires Shape(s) && PointersOk(s) && i < MAX_NFS
  {
    if Valid(s, i) && s.nfs[i].bkFlag == 1 then Post(s.nfs[i], ScaleBlock, i, 0) else s.nfs[i]
  }

  function UpMessages(s: State): (r: State)
    requires Shape(s) && PointersOk(s)
    ensures OnlyScaling(s, r)
  {
    s.(nfs := seq(MAX_NFS, i requires 0 <= i < MAX_NFS => UpMessage(s, i)))
  }

  function BlockMessages(s: State): (r: State)
    requires Shape(s) && PointersOk(s)
    ensures OnlyScaling(s, r)
  {
    s.(nfs := seq(MAX_NFS, i requires 0 <= i < MAX_NFS => BlockMessage(s, i)))
  }

  /** up_signal: some running instance is marked as overloaded. */
  ghost predicate UpSignal(s: State)
    requires Shape(s) && PointersOk(s)
  {
    exists i: nat :: i < MAX_NFS && Valid(s, i) && s.nfs[i].olFlag == 1
  }

  // ---------- Load check ----------

  /** The 16-bit sum of the loads of the running instances of a type among the first n slots,
      and the load limit of the last of them. */
  function LoadOf(s: State, y: nat, n: nat, maxLoad: nat): (nat, nat)
    requires Shape(s) && PointersOk(s) && n <= MAX_NFS
  {
    if n == 0 then (0, maxLoad)
    else
      var rest := LoadOf(s, y, n - 1, maxLoad);
      if Counted(s, y, n - 1) then ((rest.0 + Load(s, n - 1)) % 65536, s.infos[s.nfs[n - 1].info.value].maxLoad)
      else rest
  }

  predicate Counted(s: State, y: nat, i: nat)
    requires Shape(s) && PointersOk(s) && i < MAX_NFS
  {
    Valid(s, i) && s.infos[s.nfs[i].info.value].srvTime != 0 && s.infos[s.nfs[i].info.value].typeId == y
  }

  /** The test of the load check, on differences of 16 bits; module LoadCheck says what it means. */
  predicate Spare(s: State, y: nat, maxLoad: nat)
    requires Shape(s) && PointersOk(s) && y < MAX_NTS
  {
    var sum := LoadOf(s, y, MAX_NFS, maxLoad);
    (sum.1 * s.avail[y] - sum.0) % 65536 >= sum.1 && s.avail[y] > 1
  }

  /** The last running instance of the row. */
  function LastRunning(s: State, y: nat, n: nat): (r: Option<nat>)
    requires Shape(s) && PointersOk(s) && y < MAX_NTS && n <= MAX_NFS_PER_NT
    requires forall k :: 0 <= k < n ==> s.nts[y][k] < MAX_NFS
    ensures r.Some? ==> r.value < MAX_NFS && Valid(s, r.value)
  {
    if n == 0 then None
    else if Valid(s, s.nts[y][n - 1]) then Some(s.nts[y][n - 1])
    else LastRunning(s, y, n - 1)
  }

  /** The block flag of instance i is raised and the instance is told. */
  function BlockNow(s: State, i: nat): State
    requires Shape(s) && i < MAX_NFS
  {
    s.(nfs := s.nfs[i := Post(s.nfs[i].(bkFlag := 1), ScaleBlock, i, 0)])
  }

  ghost predicate SomeRuns(s: State, y: nat)
    requires Shape(s) && PointersOk(s)
  {
    exists i :: i in Members(s, y) && Valid(s, i)
  }

  lemma {:induction false} LastRunningFinds(s: State, y: nat, n: nat)
    requires Shape(s) && PointersOk(s) && y < MAX_NTS && n <= MAX_NFS_PER_NT
    requires forall k :: 0 <= k < n ==> s.nts[y][k] < MAX_NFS
    ensures var r := LastRunning(s, y, n);
            match r
            case None => forall k :: 0 <= k < n ==> !Valid(s, s.nts[y][k])
            case Some(i) => exists k :: 0 <= k < n && s.nts[y][k] == i && Valid(s, i) &&
                              forall j :: k < j < n ==> !Valid(s, s.nts[y][j])
  {
    hide Valid;
    if n > 0 && !Valid(s, s.nts[y][n - 1]) {
      LastRunningFinds(s, y, n - 1);
    }
  }

  /** The search stays inside the row just when some instance of the type runs, and then finds
      the one that became ready last. */
  lemma ChoiceExists(s: State, y: nat)
    requires Inv(s) && y < MAX_NTS
    ensures s.num[y] <= MAX_NFS_PER_NT && forall k :: 0 <= k < s.num[y] ==> s.nts[y][k] < MAX_NFS
    ensures LastRunning(s, y, s.num[y]).Some? <==> SomeRuns(s, y)
    ensures var r := LastRunning(s, y, s.num[y]);
            r.Some? ==> r.value in Members(s, y) && Valid(s, r.value)
  {
    hide Linked, Local, Counters, LastRunning, Registered, TypeOf, Valid, PointersOk;
    InvParts(s);
    Runs.CountersAgree(s, y);
    Router.MembersAreSlots(s, y);
    var ids := Ids(s, y);
    assert forall k :: 0 <= k < |ids| ==> ids[k] in ids && s.nts[y][k] == ids[k];
    LastRunningFinds(s, y, s.num[y]);
  }

  /** In a settled state with two instances available the search finds one, and blocking it
      keeps the invariant. */
  lemma SettledBlock(s: State, y: nat)
    requires Inv(s) && y < MAX_NTS && s.ring == [] && s.avail[y] > 1
    ensures SomeRuns(s, y)
    ensures s.num[y] <= MAX_NFS_PER_NT && forall k :: 0 <= k < s.num[y] ==> s.nts[y][k] < MAX_NFS
    ensures var r := LastRunning(s, y, s.num[y]); r.Some? && Inv(BlockNow(s, r.value))
  {
    hide Inv, LastRunning, Members, BlockNow;
    InvParts(s);
    SettledRuns(s, y);
    ChoiceExists(s, y);
    SettledChoice(s, y, LastRunning(s, y, s.num[y]).value);
  }

  lemma SettledRuns(s: State, y: nat)
    requires Inv(s) && y < MAX_NTS && s.ring == [] && s.avail[y] > 0
    ensures SomeRuns(s, y)
  {
    hide Local, Counters;
    Runs.CountersAgree(s, y);
    var j :| j in Open(s, y);
    OpenRuns(s, j);
    assert j in Members(s, y);
  }

  lemma SettledChoice(s: State, y: nat, i: nat)
    requires Inv(s) && s.ring == [] && i in Members(s, y) && i < MAX_NFS && Valid(s, i)
    ensures Inv(BlockNow(s, i))
  {
    hide Local, Counters, BlockNow;
    Runs.SettledFlag(s, i);
    BlockNowKeepsIff(s, i);
  }

  lemma OpenRuns(s: State, i: nat)
    requires Inv(s) && Registered(s, i) && s.ring == [] && s.nfs[i].bkFlag != 2
    ensures Valid(s, i)
  {
    hide Counters;
    Runs.SettledFlag(s, i);
    assert Local(s, s.nfs[i].info.value);
  }

  /** Blocking a running instance keeps the invariant just when it is not blocked already. */
  lemma BlockNowKeepsIff(s: State, i: nat)
    requires Inv(s) && i < MAX_NFS && Valid(s, i)
    ensures Inv(BlockNow(s, i)) <==> s.nfs[i].bkFlag != 2
  {
    hide Inv;
    assert Shape(s) && PointersOk(s) by { InvParts(s); }
    var t, r := s.(nfs := s.nfs[i := s.nfs[i].(bkFlag := 1)]), BlockNow(s, i);
    if s.nfs[i].bkFlag != 2 {
      RaiseBlockKeeps(s, i);
      ScalingKeeps(t, r);
    } else if Inv(r) {
      Runs.RaiseKeepsCountersIff(s, i);
      InvParts(r);
      assert SameRegistry(r, t);
      CountersKept(r, t);
    }
  }

  /** When every instance of a type is blocked, the pass tells exactly one of them to run, and on
      reading its queue, whatever was in it before, that one runs again and has reported it. */
  lemma ParentAnswers(s: State, y: nat)
    requires Inv(s) && y < MAX_NTS && s.ring == [] && s.num[y] > 0 && s.avail[y] == 0
    ensures |Woken(s, y, 1)| == 1 && Woken(s, y, 1)[0] in Members(s, y)
    ensures var i, t := Woken(s, y, 1)[0], SendAll(s, Woken(s, y, 1));
            var h, u := s.nfs[i].info.value, Duplicates.Read(t, i, |t.nfs[i].scaleQ|);
            u.infos[h].status == Running && u.ring == [Msg(MsgRunning, h)] && u.nfs[i].scaleQ == []
  {
    hide Inv, BlockedIds, FirstOccupied, Woken;
    InvParts(s);
    Runs.SettledCounts(s, y);
    Runs.CountersAgree(s, y);
    BlockedIdsAreMembers(s, y);
    WokenCount(s, y, 1);
    var i := Woken(s, y, 1)[0];
    assert i in Woken(s, y, 1) && Woken(s, y, 1) == [i];
    assert IsBlocked(s, y, i);
    AnswersRun(s, y, i);
  }

  lemma AnswersRun(s: State, y: nat, i: nat)
    requires Inv(s) && i < MAX_NFS && IsBlocked(s, y, i) && s.ring == []
    ensures i in Members(s, y)
    ensures var t := SendAll(s, [i]);
            PointersOk(t) && t.nfs[i].info == s.nfs[i].info && t.nfs[i].info.Some? &&
            var h, u := s.nfs[i].info.value, Duplicates.Read(t, i, |t.nfs[i].scaleQ|);
            u.infos[h].status == Running && u.ring == [Msg(MsgRunning, h)] && u.nfs[i].scaleQ == []
  {
    hide Local, Counters;
    Runs.SettledFlag(s, i);
    var t := SendAll(s, [i]);
    assert t.nfs[i] == Told(s.nfs[i], i);
    Duplicates.WakesUp(t, i);
  }
}

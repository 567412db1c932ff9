/**
 What holds in every state of every run of the system, in terms a maintainer would use:
 flags against messages, counters against instances, the type map against instances; and
 exactly when the two steps the assumptions restrict would break the counters.
 */
module Runs {
  import opened Registry
  import opened TypeMap
  import opened Lifecycle

  /** The state main and init leave behind: id 0 is reserved and nothing is known. */
  ghost predicate Initial(s: State) {
    Shape(s) && s.nextId == 1 && s.numNfs == 0 && s.ring == [] &&
    (forall h :: 0 <= h < MAX_NFS ==> s.procs[h] == Free) &&
    (forall i :: 0 <= i < MAX_NFS ==> s.nfs[i].info == None && s.nfs[i].bkFlag == 0) &&
    (forall t :: 0 <= t < MAX_NTS ==> s.num[t] == 0 && s.avail[t] == 0) &&
    (forall t :: 0 <= t < MAX_NTS ==> forall k :: 0 <= k < MAX_NFS_PER_NT ==> s.nts[t][k] == 0)
  }

  /** Steps of any kind and order, each enabled where it is taken. */
  ghost predicate IsRun(states: seq<State>, events: seq<Event>) {
    |states| == |events| + 1 && Initial(states[0]) &&
    forall k :: 0 <= k < |events| ==> CanStep(states[k], events[k], states[k + 1])
  }

  ghost predicate CanStep(s: State, e: Event, t: State) {
    Shape(s) && PointersOk(s) && Enabled(s, e) && t == Apply(s, e)
  }

  lemma {:induction false} ZeroTotal(c: seq<nat>)
    requires forall t :: 0 <= t < |c| ==> c[t] == 0
    ensures Total(c) == 0
  {
    if c != [] {
      ZeroTotal(c[..|c| - 1]);
    }
  }

  lemma InitialInv(s: State)
    requires Initial(s)
    ensures Inv(s)
  {
    ZeroTotal(s.num);
    forall t | 0 <= t < MAX_NTS
      ensures TypeInv(s, t)
    {
      assert Members(s, t) == {};
      assert Open(s, t) == {};
    }
  }

  lemma HandleKeeps(s: State)
    requires Inv(s) && s.ring != [] && Safe(s, s.ring[0])
    ensures Inv(HandleNext(s))
  {
    hide Inv, Dispatch, HandleNext;
    var m := s.ring[0];
    match m.kind
    case MsgStarting => HandleStartingKeeps(s);
    case MsgReady => HandleReadyKeeps(s);
    case MsgStopping => HandleStoppingKeeps(s);
    case MsgRunning => HandleRunningKeeps(s);
    case MsgSrvTime => HandleSrvTimeKeeps(s);
    case MsgBlocking =>
      if s.infos[m.info].status == Blocked && FlagOf(s, m.info) == 1 {
        HandleBlockingKeeps(s);
      } else {
        HandleStaleBlockingKeeps(s);
      }
  }

  lemma SlotOnlyKeeps(s: State, e: Event)
    requires Inv(s) && Enabled(s, e) && (e.Notify? || e.Mark? || e.Rate?)
    ensures Inv(Apply(s, e))
  {
    hide Local, Counters;
    SameProtocolKeeps(s, Apply(s, e));
  }

  lemma StepKeeps(s: State, e: Event)
    requires Inv(s) && Enabled(s, e)
    ensures Inv(Apply(s, e))
  {
    hide Inv;
    match e
    case TakeRecord(h, typeId, maxLoad) => TakeRecordKeeps(s, h, typeId, maxLoad);
    case GiveUp(h) => GiveUpKeeps(s, h);
    case Report(h) => ReportKeeps(s, h);
    case SendSrvTime(h, time) => SendSrvTimeKeeps(s, h, time);
    case Poll(i) => PollKeeps(s, i);
    case Leave(h) => LeaveKeeps(s, h);
    case RaiseBlock(i) => RaiseBlockKeeps(s, i);
    case Notify(i, sig, scaleNum) => SlotOnlyKeeps(s, e);
    case Mark(i, olFlag, scaleNum) => SlotOnlyKeeps(s, e);
    case Rate(i, pktRate) => SlotOnlyKeeps(s, e);
    case Handle => HandleKeeps(s);
  }

  /** The invariant holds in every state of every run. */
  lemma {:induction false} RunKeepsInv(states: seq<State>, events: seq<Event>, k: nat)
    requires IsRun(states, events) && k < |states|
    ensures Inv(states[k])
  {
    hide Inv, Initial, Enabled, Apply, Shape, PointersOk;
    if k == 0 {
      InitialInv(states[0]);
    } else {
      RunKeepsInv(states, events, k - 1);
      assert CanStep(states[k - 1], events[k - 1], states[k]);
      StepKeeps(states[k - 1], events[k - 1]);
    }
  }

  // ---------- Flags and messages ----------

  /** How often a message waits in the ring. */
  function Count(ring: seq<Msg>, m: Msg): nat {
    if ring == [] then 0 else (if ring[0] == m then 1 else 0) + Count(ring[1..], m)
  }

  function CountKind(kinds: seq<MsgKind>, kind: MsgKind): nat {
    if kinds == [] then 0 else (if kinds[0] == kind then 1 else 0) + CountKind(kinds[1..], kind)
  }

  lemma {:induction false} CountOfProj(ring: seq<Msg>, kind: MsgKind, h: nat)
    ensures Count(ring, Msg(kind, h)) == CountKind(Proj(ring, h), kind)
  {
    if ring != [] {
      CountOfProj(ring[1..], kind, h);
      if ring[0].info == h {
        assert Proj(ring, h)[1..] == Proj(ring[1..], h) && Proj(ring, h)[0] == ring[0].kind;
      } else {
        assert Proj(ring, h) == Proj(ring[1..], h);
      }
    }
  }

  lemma {:induction false} QuietHasNoRunning(kinds: seq<MsgKind>)
    requires Quiet(kinds)
    ensures CountKind(kinds, MsgRunning) == 0
  {
    if kinds != [] {
      QuietHasNoRunning(kinds[1..]);
    }
  }

  lemma {:induction false} OneRunningCounts(kinds: seq<MsgKind>)
    requires OneRunning(kinds)
    ensures CountKind(kinds, MsgRunning) == 1
  {
    var p :| 0 <= p < |kinds| && kinds[p] == MsgRunning && Quiet(kinds[..p]) && Quiet(kinds[p + 1..]);
    if p == 0 {
      QuietHasNoRunning(kinds[1..]);
    } else {
      QuietHead(kinds, p);
      var rest := kinds[1..];
      assert rest[p - 1] == MsgRunning && rest[..p - 1] == kinds[..p][1..] && rest[p..] == kinds[p + 1..];
      OneRunningCounts(rest);
    }
  }

  lemma LocalCounts(proc: Process, status: Status, bk: nat, kinds: seq<MsgKind>)
    requires LocalInv(proc, status, bk, kinds) && (status == Running || status == Blocked) && proc != Free
    ensures bk == 0 ==> status == Running
    ensures status == Blocked && bk == 1 ==> MsgBlocking in kinds
    ensures CountKind(kinds, MsgRunning) == if status == Running && bk == 2 then 1 else 0
  {
    if status == Running && bk == 2 {
      OneRunningCounts(kinds);
    } else {
      QuietHasNoRunning(kinds);
    }
  }

  lemma {:induction false} ProjFinds(ring: seq<Msg>, kind: MsgKind, h: nat)
    requires kind in Proj(ring, h)
    ensures Msg(kind, h) in ring
  {
    if ring[0] != Msg(kind, h) {
      ProjFinds(ring[1..], kind, h);
    }
  }

  /** The handshake on a registered instance that has not stopped. */
  lemma HandshakeSafe(s: State, i: nat)
    requires Inv(s) && Registered(s, i)
    ensures var h, bk := s.nfs[i].info.value, s.nfs[i].bkFlag;
            var status := s.infos[h].status;
            status != Stopped ==>
              (bk == 0 ==> status == Running) &&
              (status == Blocked && bk == 1 ==> Msg(MsgBlocking, h) in s.ring) &&
              Count(s.ring, Msg(MsgRunning, h)) == if status == Running && bk == 2 then 1 else 0
  {
    hide Proj, LocalInv, Counters;
    var h, bk := s.nfs[i].info.value, s.nfs[i].bkFlag;
    if s.infos[h].status != Stopped {
      assert Local(s, h);
      LocalCounts(s.procs[h], s.infos[h].status, bk, Proj(s.ring, h));
      CountOfProj(s.ring, MsgRunning, h);
      if s.infos[h].status == Blocked && bk == 1 {
        ProjFinds(s.ring, MsgBlocking, h);
      }
    }
  }

  // ---------- Counters and type map ----------

  /** The registered instances of a type that are blocked for good. */
  function Closed(s: State, y: nat): set<nat>
    requires Shape(s)
  {
    set i | i in Members(s, y) && s.nfs[i].bkFlag == 2
  }

  lemma CountersAgree(s: State, y: nat)
    requires Inv(s) && y < MAX_NTS
    ensures s.num[y] == |Members(s, y)|
    ensures s.avail[y] == |Open(s, y)|
    ensures s.num[y] == s.avail[y] + |Closed(s, y)|
    ensures s.numNfs == Total(s.num)
    ensures s.num[y] <= MAX_NFS_PER_NT && Holds(s.nts[y], Ids(s, y)) && Distinct(Ids(s, y))
    ensures forall i :: i in Members(s, y) <==> i in Ids(s, y)
  {
    hide Members, Linked, Local;
    assert TypeInv(s, y);
    CountsMembers(s, y);
    assert Closed(s, y) == Members(s, y) - Open(s, y);
  }

  /** The registered instances of a type whose own record says that they are blocked. */
  function BlockedOf(s: State, y: nat): set<nat>
    requires Shape(s)
  {
    set i | i in Members(s, y) && s.infos[s.nfs[i].info.value].status == Blocked
  }

  /** With no message waiting, the blocked instances are those the counters leave out. */
  lemma SettledCounts(s: State, y: nat)
    requires Inv(s) && y < MAX_NTS && s.ring == []
    ensures Closed(s, y) == BlockedOf(s, y)
    ensures s.num[y] == s.avail[y] + |BlockedOf(s, y)|
  {
    hide Counters, Linked, Proj, LocalInv;
    CountersAgree(s, y);
    forall i | i in Members(s, y)
      ensures s.nfs[i].bkFlag == 2 <==> s.infos[s.nfs[i].info.value].status == Blocked
    {
      SettledFlag(s, i);
    }
  }

  lemma SettledFlag(s: State, i: nat)
    requires Inv(s) && Registered(s, i) && s.ring == []
    ensures s.nfs[i].bkFlag == 2 <==> s.infos[s.nfs[i].info.value].status == Blocked
  {
    hide Counters;
    assert Local(s, s.nfs[i].info.value);
    HandshakeSafe(s, i);
  }

  /** What the start of an instance is granted: with a requested id, that id just when no running
      instance has it; without one, an id just when next_inst_id has not run out and its slots are not
      all running.  A start that is refused leaves every slot alone, and a start that is granted changes
      only the slot of its id, which then points to the record. */
  lemma StartOutcome(s: State, h: nat)
    requires Shape(s) && PointersOk(s) && h < MAX_NFS && s.infos[h].status == WaitingForId
    requires s.infos[h].instId == NO_ID || s.infos[h].instId < MAX_NFS
    ensures var t := NfStart(s, h);
            var want, got := s.infos[h].instId, t.infos[h].instId;
            (if want != NO_ID then t.infos[h].status == (if Valid(s, want) then IdConflict else Starting)
             else t.infos[h].status == (if s.nextId >= MAX_NFS then NoIds
                                        else if forall j :: s.nextId <= j < MAX_NFS ==> Valid(s, j) then IdConflict
                                        else Starting)) &&
            (t.infos[h].status != Starting ==> t.nfs == s.nfs && got == want) &&
            (t.infos[h].status == Starting ==>
               got < MAX_NFS && !Valid(s, got) && (want != NO_ID ==> got == want) &&
               t.nfs == s.nfs[got := s.nfs[got].(info := Some(h), instId := got)]) &&
            forall g :: 0 <= g < MAX_NFS && g != h ==> t.infos[g] == s.infos[g]
  {
    if s.infos[h].instId == NO_ID && s.nextId < MAX_NFS {
      var flags := ValidFlags(s);
      FirstUnused(flags, s.nextId);
      var id := NextUnused(flags, s.nextId);
      assert forall j :: 0 <= j < MAX_NFS ==> flags[j] == Valid(s, j);
      assert Valid(s, id) <==> forall j :: s.nextId <= j < MAX_NFS ==> Valid(s, j);
    }
  }

  lemma {:induction false} FirstUnused(valid: seq<bool>, from: nat)
    requires from < |valid|
    ensures var r := NextUnused(valid, from);
            from <= r < |valid| && (forall j :: from <= j < r ==> valid[j]) && (valid[r] ==> r == |valid| - 1)
    decreases |valid| - from
  {
    if valid[from] && from < |valid| - 1 {
      FirstUnused(valid, from + 1);
    }
  }

  /** Becoming ready puts the id after those of its type. */
  lemma ReadyAppends(s: State, h: nat)
    requires Inv(s) && h < MAX_NFS && s.infos[h].status == Starting && RowHasRoom(s, s.infos[h].typeId)
    ensures var t, y := NfReady(s, h), s.infos[h].typeId;
            s.num[y] <= MAX_NFS_PER_NT && t.num[y] == s.num[y] + 1 && Ids(t, y) == Ids(s, y) + [s.infos[h].instId]
  {
    hide Linked, Local, Counters;
  }

  /** Stopping removes the id from its row, moves the later ones up, and touches no other row. */
  lemma StopCloses(s: State, h: nat)
    requires Inv(s) && h < MAX_NFS && Owner(s, h) && s.infos[h].status != Starting
    ensures var t, i, y := NfStop(s, h), s.infos[h].instId, s.infos[h].typeId;
            s.num[y] <= MAX_NFS_PER_NT && i in Ids(s, y) && t.num[y] == s.num[y] - 1 &&
            (forall x :: 0 <= x < MAX_NTS && x != y ==> t.nts[x] == s.nts[x] && t.num[x] == s.num[x]) &&
            exists k :: 0 <= k < |Ids(s, y)| && Ids(s, y)[k] == i && Ids(t, y) == Without(Ids(s, y), k)
  {
    hide Local, RemoveFromRow, Without, Distinct, Holds;
    var t, i, y := NfStop(s, h), s.infos[h].instId, s.infos[h].typeId;
    assert TypeInv(s, y);
    assert i in Members(s, y);
    var ids := Ids(s, y);
    var k :| 0 <= k < |ids| && ids[k] == i;
    RemoveFromRowIsWithout(s.nts[y], ids, k);
    HeldPrefix(t.nts[y], Without(ids, k));
    assert Ids(t, y) == Without(ids, k);
  }

  /** A record is back in the pool, for the next program to take, when its program got no id, or when
      its stop has been handled; before that no program can take it. */
  lemma RecordsReturn(s: State, h: nat, typeId: nat, maxLoad: nat)
    requires Inv(s) && PointersOk(s) && h < MAX_NFS
    ensures Enabled(s, GiveUp(h)) ==>
              !Enabled(s, TakeRecord(h, typeId, maxLoad)) &&
              var t := Apply(s, GiveUp(h)); Shape(t) && PointersOk(t) && Enabled(t, TakeRecord(h, typeId, maxLoad))
    ensures s.ring != [] && s.ring[0] == Msg(MsgStopping, h) && Safe(s, s.ring[0]) ==>
              !Enabled(s, TakeRecord(h, typeId, maxLoad)) &&
              var t := HandleNext(s); Shape(t) && PointersOk(t) && Enabled(t, TakeRecord(h, typeId, maxLoad))
  {
    hide Counters, Linked, Proj, LocalInv, RemoveFromRow;
    assert Local(s, h);
    if s.ring != [] && s.ring[0] == Msg(MsgStopping, h) && Safe(s, s.ring[0]) {
      HeadRemoved(s.ring);
      AtStopping(s.procs[h], s.infos[h].status, FlagOf(s, h), Proj(s.ring, h));
    }
  }

  lemma HeldPrefix(row: seq<nat>, ids: seq<nat>)
    requires Holds(row, ids)
    ensures |ids| <= |row| && row[..|ids|] == ids
  {
  }

  // ---------- The two restricted steps ----------

  /** Raising the block flag of a running instance keeps the counters true just when the
      instance is not blocked already. */
  lemma RaiseKeepsCountersIff(s: State, i: nat)
    requires Inv(s) && i < MAX_NFS && Valid(s, i)
    ensures Counters(s.(nfs := s.nfs[i := s.nfs[i].(bkFlag := 1)])) <==> s.nfs[i].bkFlag != 2
  {
    hide Counters, Local;
    if s.nfs[i].bkFlag == 2 {
      RaiseBlockedMiscounts(s, i);
    } else {
      RaiseBlockKeeps(s, i);
      InvParts(Apply(s, RaiseBlock(i)));
    }
  }

  lemma RaiseBlockedMiscounts(s: State, i: nat)
    requires Inv(s) && i < MAX_NFS && Valid(s, i) && s.nfs[i].bkFlag == 2
    ensures !Counters(s.(nfs := s.nfs[i := s.nfs[i].(bkFlag := 1)]))
  {
    hide Local, Holds, Distinct, Registered, TypeOf;
    var t := s.(nfs := s.nfs[i := s.nfs[i].(bkFlag := 1)]);
    var y := s.infos[s.nfs[i].info.value].typeId;
    assert TypeInv(s, y);
    assert Members(t, y) == Members(s, y) && i in Members(s, y) by { RaiseMembers(s, i); }
    assert Open(t, y) == Open(s, y) + {i};
    assert !TypeInv(t, y);
  }

  lemma RaiseMembers(s: State, i: nat)
    requires Inv(s) && i < MAX_NFS && Valid(s, i)
    ensures var t, y := s.(nfs := s.nfs[i := s.nfs[i].(bkFlag := 1)]), s.infos[s.nfs[i].info.value].typeId;
            i in Members(s, y) && Members(t, y) == Members(s, y)
  {
    hide Local, Counters;
  }

  /** Handling the stop of an instance stays inside the type map and keeps the counters true
      just when the instance has been ready and is not blocked; the handler takes it off both
      counters in any case. */
  lemma StopKeepsCountersIff(s: State, h: nat)
    requires Inv(s) && h < MAX_NFS && Owner(s, h)
    ensures s.infos[h].typeId < MAX_NTS && Counters(NfStop(s, h)) <==>
            FlagOf(s, h) != 2 && s.infos[h].status != Starting
  {
    hide Local, Holds, Distinct, RemoveFromRow, Registered, TypeOf, Counters;
    if s.infos[h].status == Starting {
      if s.infos[h].typeId < MAX_NTS {
        StopUnreadyMiscounts(s, h);
      }
    } else {
      StopReadyKeepsIff(s, h);
    }
  }

  /** An instance that never was ready is not counted, so the counters become one too low. */
  lemma StopUnreadyMiscounts(s: State, h: nat)
    requires Inv(s) && h < MAX_NFS && Owner(s, h) && s.infos[h].status == Starting && s.infos[h].typeId < MAX_NTS
    ensures !Counters(NfStop(s, h))
  {
    hide Local, Holds, Distinct, RemoveFromRow, Registered, TypeOf;
    var t, y := NfStop(s, h), s.infos[h].typeId;
    assert TypeInv(s, y);
    CountsMembers(s, y);
    UnreadyMembers(s, h);
    if Counters(t) {
      assert TypeInv(t, y);
      CountsMembers(t, y);
    }
  }

  lemma UnreadyMembers(s: State, h: nat)
    requires Inv(s) && h < MAX_NFS && Owner(s, h) && s.infos[h].status == Starting && s.infos[h].typeId < MAX_NTS
    ensures Members(NfStop(s, h), s.infos[h].typeId) == Members(s, s.infos[h].typeId)
  {
    hide Local, Counters, RemoveFromRow;
  }

  lemma StopReadyKeepsIff(s: State, h: nat)
    requires Inv(s) && h < MAX_NFS && Owner(s, h) && s.infos[h].status != Starting
    ensures Counters(NfStop(s, h)) <==> FlagOf(s, h) != 2
  {
    hide Local, Holds, Distinct, RemoveFromRow, Registered, TypeOf;
    var t, i, y := NfStop(s, h), s.infos[h].instId, s.infos[h].typeId;
    assert TypeInv(s, y);
    assert Registered(s, i) && TypeOf(s, i) == y && !Registered(t, i) && OthersRegistered(s, t, i) by {
      StopRegistry(s, h);
    }
    if FlagOf(s, h) != 2 {
      CountersAfterQuit(s, t, i, y);
    } else {
      assert Open(t, y) == Open(s, y);
      CountsMembers(s, y);
      assert !TypeInv(t, y);
    }
  }

  lemma StopRegistry(s: State, h: nat)
    requires Inv(s) && h < MAX_NFS && Owner(s, h) && s.infos[h].status != Starting
    ensures var t, i := NfStop(s, h), s.infos[h].instId;
            Registered(s, i) && TypeOf(s, i) == s.infos[h].typeId && !Registered(t, i) && OthersRegistered(s, t, i)
  {
    hide Local, Counters, RemoveFromRow;
  }

  // ---------- Draining the ring ----------

  /** The handlers neither read nor write the ring. */
  lemma DispatchLeavesRing(s: State, r: seq<Msg>, msg: Msg)
    requires Safe(s, msg)
    ensures Safe(s.(ring := r), msg) && Dispatch(s.(ring := r), msg) == Dispatch(s, msg).(ring := r)
  {
    assert ValidFlags(s.(ring := r)) == ValidFlags(s);
  }

  /** Every message now in the ring, and no other, can be handled in turn. */
  ghost predicate Drainable(s: State)
    decreases |s.ring|
  {
    s.ring == [] || (Safe(s, s.ring[0]) && Drainable(HandleNext(s)))
  }

  /** The state after the messages now in the ring have been handled. */
  ghost function Drain(s: State): State
    requires Drainable(s)
    decreases |s.ring|
  {
    if s.ring == [] then s else Drain(HandleNext(s))
  }

  /** d2sc_nf_check_status leaves a settled state: flags and records of all instances agree. */
  lemma {:induction false} DrainSettles(s: State)
    requires Inv(s) && Drainable(s)
    ensures Inv(Drain(s)) && Drain(s).ring == []
    decreases |s.ring|
  {
    hide Inv, HandleNext, Safe;
    if s.ring != [] {
      HandleKeeps(s);
      assert |HandleNext(s).ring| < |s.ring| by { HandleShortens(s); }
      DrainSettles(HandleNext(s));
    }
  }

  lemma HandleShortens(s: State)
    requires s.ring != [] && Safe(s, s.ring[0])
    ensures HandleNext(s).ring == s.ring[1..]
  {
  }
}

/**
 The system as a transition system: network functions, the scale thread and the master
 thread take atomic steps in any order.  The invariant below holds in every state of every
 run, and gives the agreement of flags, messages, type map and counters.

 The assumptions of the steps are stated in Enabled: instances are numbered by the manager,
 the type of an instance that becomes ready has a row with room, the block flag is raised
 only on an instance that is not blocked, and only such an instance stops.
 */
module Lifecycle {
  import opened Registry
  import opened TypeMap

  // ---------- Messages by record ----------

  /** The kinds of the queued messages about record h, in queue order. */
  function Proj(ring: seq<Msg>, h: nat): seq<MsgKind> {
    if ring == [] then []
    else (if ring[0].info == h then [ring[0].kind] else []) + Proj(ring[1..], h)
  }

  lemma {:induction false} ProjAppend(ring: seq<Msg>, m: Msg, h: nat)
    ensures Proj(ring + [m], h) == Proj(ring, h) + if m.info == h then [m.kind] else []
  {
    if ring == [] {
      assert ring + [m] == [m];
    } else {
      assert (ring + [m])[1..] == ring[1..] + [m];
      ProjAppend(ring[1..], m, h);
    }
  }

  /** Messages that the manager ignores unless the instance is about to block. */
  ghost predicate Quiet(kinds: seq<MsgKind>) {
    forall k :: 0 <= k < |kinds| ==> kinds[k] == MsgBlocking || kinds[k] == MsgSrvTime
  }

  ghost predicate OneRunning(kinds: seq<MsgKind>) {
    exists p :: 0 <= p < |kinds| && kinds[p] == MsgRunning && Quiet(kinds[..p]) && Quiet(kinds[p + 1..])
  }

  ghost predicate OnlySrvTime(kinds: seq<MsgKind>) {
    forall k :: 0 <= k < |kinds| ==> kinds[k] == MsgSrvTime
  }

  /** What holds of one record: its owner's progress, its status, the block flag of its slot,
      and the messages about it that wait in the ring. */
  ghost predicate LocalInv(proc: Process, status: Status, bk: nat, kinds: seq<MsgKind>) {
    match proc
    case Free => kinds == []
    case Started =>
      (status == WaitingForId && kinds == [MsgStarting]) ||
      (status == NoIds && kinds == []) ||
      (status == Starting && bk == 0 && kinds == [])
    case Reported =>
      (status == Starting && bk == 0 && kinds != [] && kinds[0] == MsgReady && OnlySrvTime(kinds[1..])) ||
      (status == Running && bk <= 1 && Quiet(kinds)) ||
      (status == Running && bk == 2 && OneRunning(kinds)) ||
      (status == Blocked && bk == 1 && Quiet(kinds) && MsgBlocking in kinds) ||
      (status == Blocked && bk == 2 && Quiet(kinds))
    case Exited =>
      status == Stopped && bk <= 1 && kinds != [] && kinds[|kinds| - 1] == MsgStopping && Quiet(kinds[..|kinds| - 1])
  }

  // ---------- Global state ----------

  /** The block flag of the slot that carries the record's instance id. */
  function FlagOf(s: State, h: nat): nat
    requires |s.nfs| == MAX_NFS && h < |s.infos|
  {
    if s.infos[h].instId < MAX_NFS then s.nfs[s.infos[h].instId].bkFlag else 0
  }

  ghost predicate Local(s: State, h: nat)
    requires Shape(s) && h < MAX_NFS
  {
    LocalInv(s.procs[h], s.infos[h].status, FlagOf(s, h), Proj(s.ring, h))
  }

  /** The record belongs to an instance the manager knows. */
  predicate Owner(s: State, h: nat)
    requires h < |s.infos| == |s.procs|
  {
    OwnerState(s.procs[h], s.infos[h].status)
  }

  predicate OwnerState(proc: Process, status: Status) {
    proc != Free && (status == Starting || status == Running || status == Blocked || status == Stopped)
  }

  /** Records and slots point to each other. */
  ghost predicate Linked(s: State)
    requires Shape(s)
  {
    1 <= s.nextId <= MAX_NFS &&
    (forall h :: 0 <= h < MAX_NFS && Owner(s, h) && s.infos[h].status != Starting ==> s.infos[h].typeId < MAX_NTS) &&
    (forall h :: 0 <= h < MAX_NFS && s.procs[h] != Free && s.infos[h].status == WaitingForId ==>
       s.infos[h].instId == NO_ID) &&
    (forall h :: 0 <= h < MAX_NFS && Owner(s, h) ==>
       1 <= s.infos[h].instId < s.nextId && s.nfs[s.infos[h].instId].info == Some(h)) &&
    (forall i :: 0 <= i < MAX_NFS && s.nfs[i].info.Some? ==>
       var h := s.nfs[i].info.value;
       h < MAX_NFS && Owner(s, h) && s.infos[h].instId == i && s.nfs[i].instId == i) &&
    (forall i :: s.nextId <= i < MAX_NFS ==> s.nfs[i].bkFlag == 0) &&
    (forall k :: 0 <= k < |s.ring| ==> s.ring[k].info < MAX_NFS)
  }

  /** The instance has become ready and its stop has not been handled yet. */
  predicate Registered(s: State, i: nat)
    requires Shape(s)
  {
    i < MAX_NFS && s.nfs[i].info.Some? && s.nfs[i].info.value < MAX_NFS &&
    var status := s.infos[s.nfs[i].info.value].status;
    status == Running || status == Blocked || status == Stopped
  }

  function TypeOf(s: State, i: nat): nat
    requires Shape(s) && Registered(s, i)
  {
    s.infos[s.nfs[i].info.value].typeId
  }

  /** The registered instances of a type. */
  function Members(s: State, t: nat): set<nat>
    requires Shape(s)
  {
    set i: nat | i < MAX_NFS && Registered(s, i) && TypeOf(s, i) == t
  }

  /** Those that take packets. */
  function Open(s: State, t: nat): set<nat>
    requires Shape(s)
  {
    set i: nat | i in Members(s, t) && s.nfs[i].bkFlag != 2
  }

  function Ids(s: State, t: nat): seq<nat>
    requires Shape(s) && t < MAX_NTS && s.num[t] <= MAX_NFS_PER_NT
  {
    s.nts[t][..s.num[t]]
  }

  /** The row of a type lists its registered instances, each once, and the counters count
      them and those of them that are not blocked. */
  ghost predicate TypeInv(s: State, t: nat)
    requires Shape(s) && t < MAX_NTS
  {
    s.num[t] <= MAX_NFS_PER_NT &&
    Holds(s.nts[t], Ids(s, t)) && Distinct(Ids(s, t)) &&
    (forall i :: i in Members(s, t) <==> i in Ids(s, t)) &&
    s.avail[t] == |Open(s, t)|
  }

  ghost predicate Counters(s: State)
    requires Shape(s)
  {
    (forall t :: 0 <= t < MAX_NTS ==> TypeInv(s, t)) && s.numNfs == Total(s.num)
  }

  ghost predicate Inv(s: State) {
    Shape(s) && Linked(s) && (forall h :: 0 <= h < MAX_NFS ==> Local(s, h)) && Counters(s)
  }

  // ---------- Steps ----------

  datatype Event =
    | TakeRecord(h: nat, typeId: nat, maxLoad: nat)
    | GiveUp(h: nat)
    | Report(h: nat)
    | SendSrvTime(h: nat, time: nat)
    | Poll(i: nat)
    | Leave(h: nat)
    | RaiseBlock(i: nat)
    | Notify(i: nat, sig: ScaleSig, scaleNum: nat)
    | Mark(i: nat, olFlag: nat, scaleNum: nat)
    | Rate(i: nat, pktRate: nat)
    | Handle

  function Send(s: State, kind: MsgKind, h: nat): State {
    s.(ring := s.ring + [Msg(kind, h)])
  }

  ghost predicate Enabled(s: State, e: Event)
    requires Shape(s) && PointersOk(s)
  {
    match e
    // An NF starts with a record from the pool.
    case TakeRecord(h, typeId, maxLoad) => h < MAX_NFS && s.procs[h] == Free
    // An NF that got no id gives its record back.
    case GiveUp(h) => h < MAX_NFS && s.procs[h] == Started && s.infos[h].status == NoIds
    // An NF that got its id says that it is ready.
    case Report(h) => h < MAX_NFS && s.procs[h] == Started && s.infos[h].status == Starting
    case SendSrvTime(h, time) => h < MAX_NFS && s.procs[h] == Reported
    // An NF in its loop reads one scale message.
    case Poll(i) => i < MAX_NFS && s.nfs[i].info.Some? && s.procs[s.nfs[i].info.value] == Reported && s.nfs[i].scaleQ != []
    // The program of a ready NF calls d2sc_nfrt_stop itself while the NF runs and is not blocked.
    case Leave(h) => h < MAX_NFS && s.procs[h] == Reported && s.infos[h].status == Running && FlagOf(s, h) != 2
    // The scale thread raises the block flag of a running instance.
    case RaiseBlock(i) => i < MAX_NFS && Valid(s, i) && s.nfs[i].bkFlag != 2
    // The scale thread sends a message.
    case Notify(i, sig, scaleNum) =>
      i < MAX_NFS && s.nfs[i].info.Some? &&
      (match sig
       case ScaleBlock => s.nfs[i].bkFlag == 1
       case ScaleRun => s.infos[s.nfs[i].info.value].status == Blocked
       case ScaleUp => Valid(s, i))
    // The scale thread marks an overload, and an instance counts down the instances to start.
    case Mark(i, olFlag, scaleNum) => i < MAX_NFS
    // The statistics of the master thread measure a packet rate.
    case Rate(i, pktRate) => i < MAX_NFS
    // The master thread handles the message at the head of the ring.
    case Handle =>
      s.ring != [] && Safe(s, s.ring[0])
  }

  /** What an instance does with a scale message: d2sc_nfrt_check_scale_msg with
      d2sc_nfrt_scale_block and d2sc_nfrt_scale_run. */
  function ReadScaleMsg(s: State, i: nat): State
    requires Shape(s) && PointersOk(s) && i < MAX_NFS && s.nfs[i].info.Some? && s.nfs[i].scaleQ != []
  {
    var m, h := s.nfs[i].scaleQ[0], s.nfs[i].info.value;
    var t := s.(nfs := s.nfs[i := s.nfs[i].(scaleQ := s.nfs[i].scaleQ[1..])]);
    match m.sig
    case ScaleUp => t
    case ScaleBlock =>
      if m.instId == s.nfs[i].instId && s.nfs[i].bkFlag == 1 then Send(SetStatus(t, h, Blocked), MsgBlocking, h) else t
    case ScaleRun =>
      if m.instId == s.nfs[i].instId && s.nfs[i].bkFlag == 2 && s.infos[h].status == Blocked
      then Send(SetStatus(t, h, Running), MsgRunning, h) else t
  }

  function HandleNext(s: State): State
    requires s.ring != [] && Safe(s, s.ring[0])
  {
    Dispatch(s, s.ring[0]).(ring := s.ring[1..])
  }

  function Apply(s: State, e: Event): State
    requires Shape(s) && PointersOk(s) && Enabled(s, e)
  {
    match e
    case TakeRecord(h, typeId, maxLoad) =>
      Send(s.(infos := s.infos[h := s.infos[h].(instId := NO_ID, typeId := typeId, status := WaitingForId, maxLoad := maxLoad)],
              procs := s.procs[h := Started]),
           MsgStarting, h)
    case GiveUp(h) => s.(procs := s.procs[h := Free])
    case Report(h) => Send(s.(procs := s.procs[h := Reported]), MsgReady, h)
    case SendSrvTime(h, time) => Send(s.(infos := s.infos[h := s.infos[h].(srvTime := time)]), MsgSrvTime, h)
    case Poll(i) => ReadScaleMsg(s, i)
    case Leave(h) => Send(SetStatus(s, h, Stopped).(procs := s.procs[h := Exited]), MsgStopping, h)
    case RaiseBlock(i) => s.(nfs := s.nfs[i := s.nfs[i].(bkFlag := 1)])
    case Notify(i, sig, scaleNum) =>
      s.(nfs := s.nfs[i := s.nfs[i].(scaleQ := s.nfs[i].scaleQ + [ScaleMsg(sig, i, scaleNum)])])
    case Mark(i, olFlag, scaleNum) => s.(nfs := s.nfs[i := s.nfs[i].(olFlag := olFlag, scaleNum := scaleNum)])
    case Rate(i, pktRate) => s.(nfs := s.nfs[i := s.nfs[i].(pktRate := pktRate)])
    case Handle => HandleNext(s)
  }

  // ---------- How one record's view changes ----------

  lemma QuietAppend(kinds: seq<MsgKind>, kind: MsgKind)
    requires Quiet(kinds) && (kind == MsgBlocking || kind == MsgSrvTime)
    ensures Quiet(kinds + [kind])
  {
  }

  lemma RunningAppend(kinds: seq<MsgKind>, kind: MsgKind)
    requires OneRunning(kinds) && (kind == MsgBlocking || kind == MsgSrvTime)
    ensures OneRunning(kinds + [kind])
  {
    var p :| 0 <= p < |kinds| && kinds[p] == MsgRunning && Quiet(kinds[..p]) && Quiet(kinds[p + 1..]);
    var more := kinds + [kind];
    assert more[..p] == kinds[..p] && more[p + 1..] == kinds[p + 1..] + [kind];
    QuietAppend(kinds[p + 1..], kind);
  }

  lemma AfterSrvTime(status: Status, bk: nat, kinds: seq<MsgKind>)
    requires LocalInv(Reported, status, bk, kinds)
    ensures LocalInv(Reported, status, bk, kinds + [MsgSrvTime])
  {
    if OneRunning(kinds) {
      RunningAppend(kinds, MsgSrvTime);
    }
    if kinds != [] {
      assert (kinds + [MsgSrvTime])[1..] == kinds[1..] + [MsgSrvTime];
    }
  }

  lemma AfterScaleBlock(status: Status, kinds: seq<MsgKind>)
    requires LocalInv(Reported, status, 1, kinds)
    ensures status == Running || status == Blocked
    ensures LocalInv(Reported, Blocked, 1, kinds + [MsgBlocking])
  {
    QuietAppend(kinds, MsgBlocking);
    assert (kinds + [MsgBlocking])[|kinds|] == MsgBlocking;
  }

  lemma AfterScaleRun(kinds: seq<MsgKind>)
    requires LocalInv(Reported, Blocked, 2, kinds)
    ensures LocalInv(Reported, Running, 2, kinds + [MsgRunning])
  {
    var more := kinds + [MsgRunning];
    assert more[|kinds|] == MsgRunning && more[..|kinds|] == kinds && more[|kinds| + 1..] == [];
  }

  lemma AfterLeave(bk: nat, kinds: seq<MsgKind>)
    requires LocalInv(Reported, Running, bk, kinds) && bk != 2
    ensures LocalInv(Exited, Stopped, bk, kinds + [MsgStopping])
  {
    var more := kinds + [MsgStopping];
    assert more[..|more| - 1] == kinds;
  }

  /** The queue is shorter by a block or service-time message that changed nothing. */
  lemma AfterIgnored(proc: Process, status: Status, bk: nat, kinds: seq<MsgKind>)
    requires LocalInv(proc, status, bk, kinds) && kinds != []
    requires kinds[0] == MsgSrvTime || (kinds[0] == MsgBlocking && !(status == Blocked && bk == 1))
    ensures LocalInv(proc, status, bk, kinds[1..])
    ensures OwnerState(proc, status)
  {
    var rest := kinds[1..];
    if proc == Reported && status == Running && bk == 2 {
      var p :| 0 <= p < |kinds| && kinds[p] == MsgRunning && Quiet(kinds[..p]) && Quiet(kinds[p + 1..]);
      assert rest[p - 1] == MsgRunning && rest[..p - 1] == kinds[..p][1..] && rest[p..] == kinds[p + 1..];
    } else if proc == Reported && status == Blocked && bk == 1 {
      assert MsgBlocking in rest;
    } else if proc == Exited {
      assert rest[..|rest| - 1] == kinds[..|kinds| - 1][1..];
    }
  }

  lemma AfterBlocking(proc: Process, kinds: seq<MsgKind>)
    requires LocalInv(proc, Blocked, 1, kinds) && kinds != [] && kinds[0] == MsgBlocking
    ensures LocalInv(proc, Blocked, 2, kinds[1..])
    ensures OwnerState(proc, Blocked)
  {
  }

  lemma QuietHead(kinds: seq<MsgKind>, p: nat)
    requires 0 < p <= |kinds| && Quiet(kinds[..p])
    ensures kinds[0] == MsgBlocking || kinds[0] == MsgSrvTime
  {
    assert kinds[..p][0] == kinds[0];
  }

  lemma AtRunning(proc: Process, status: Status, bk: nat, kinds: seq<MsgKind>)
    requires LocalInv(proc, status, bk, kinds) && kinds != [] && kinds[0] == MsgRunning
    ensures proc == Reported && status == Running && bk == 2
    ensures LocalInv(proc, status, 0, kinds[1..])
  {
    assert kinds[1..] == [] || kinds[1..][0] == kinds[1];
    if OneRunning(kinds) {
      var p :| 0 <= p < |kinds| && kinds[p] == MsgRunning && Quiet(kinds[..p]) && Quiet(kinds[p + 1..]);
      if p > 0 {
        QuietHead(kinds, p);
      }
    }
  }

  lemma AtReady(proc: Process, status: Status, bk: nat, kinds: seq<MsgKind>)
    requires LocalInv(proc, status, bk, kinds) && kinds != [] && kinds[0] == MsgReady
    ensures proc == Reported && status == Starting && bk == 0
    ensures LocalInv(proc, Running, 0, kinds[1..])
  {
  }

  lemma AtStopping(proc: Process, status: Status, bk: nat, kinds: seq<MsgKind>)
    requires LocalInv(proc, status, bk, kinds) && kinds != [] && kinds[0] == MsgStopping
    ensures proc == Exited && status == Stopped && bk <= 1 && kinds == [MsgStopping]
  {
  }

  lemma AtStarting(proc: Process, status: Status, bk: nat, kinds: seq<MsgKind>)
    requires LocalInv(proc, status, bk, kinds) && kinds != [] && kinds[0] == MsgStarting
    ensures proc == Started && status == WaitingForId && kinds == [MsgStarting]
  {
  }

  // ---------- What each step keeps ----------

  /** The step leaves every record but h, and every message about it, as it was. */
  ghost predicate OthersKept(s: State, t: State, h: nat)
    requires Shape(s) && Shape(t)
  {
    forall g :: 0 <= g < MAX_NFS && g != h ==>
      t.procs[g] == s.procs[g] && t.infos[g] == s.infos[g] && Proj(t.ring, g) == Proj(s.ring, g) &&
      (Owner(s, g) ==> FlagOf(t, g) == FlagOf(s, g))
  }

  lemma LocalKept(s: State, t: State, h: nat)
    requires Shape(s) && Shape(t) && h < MAX_NFS && OthersKept(s, t, h)
    requires forall g :: 0 <= g < MAX_NFS ==> Local(s, g)
    requires Local(t, h)
    ensures forall g :: 0 <= g < MAX_NFS ==> Local(t, g)
  {
    forall g | 0 <= g < MAX_NFS
      ensures Local(t, g)
    {
      assert Local(s, g);
    }
  }

  /** The step changes nothing the counters depend on. */
  ghost predicate SameRegistry(s: State, t: State)
    requires Shape(s) && Shape(t)
  {
    t.nts == s.nts && t.num == s.num && t.avail == s.avail && t.numNfs == s.numNfs &&
    forall i: nat :: i < MAX_NFS ==>
      Registered(s, i) == Registered(t, i) &&
      (Registered(s, i) ==> TypeOf(s, i) == TypeOf(t, i) && (s.nfs[i].bkFlag == 2 <==> t.nfs[i].bkFlag == 2))
  }

  lemma CountersKept(s: State, t: State)
    requires Shape(s) && Shape(t) && SameRegistry(s, t) && Counters(s)
    ensures Counters(t)
  {
    hide Registered, TypeOf, Holds, Distinct;
    forall y | 0 <= y < MAX_NTS
      ensures TypeInv(t, y)
    {
      assert TypeInv(s, y);
      assert Members(t, y) == Members(s, y);
      assert Open(t, y) == Open(s, y);
    }
  }

  lemma AppendKeepsOthers(ring: seq<Msg>, kind: MsgKind, h: nat)
    ensures Proj(ring + [Msg(kind, h)], h) == Proj(ring, h) + [kind]
    ensures forall g :: g != h ==> Proj(ring + [Msg(kind, h)], g) == Proj(ring, g)
  {
    ProjAppend(ring, Msg(kind, h), h);
    forall g | g != h
      ensures Proj(ring + [Msg(kind, h)], g) == Proj(ring, g)
    {
      ProjAppend(ring, Msg(kind, h), g);
    }
  }

  lemma TakeRecordKeeps(s: State, h: nat, typeId: nat, maxLoad: nat)
    requires Inv(s) && Enabled(s, TakeRecord(h, typeId, maxLoad))
    ensures Inv(Apply(s, TakeRecord(h, typeId, maxLoad)))
  {
    hide Proj, Counters;
    var t := Apply(s, TakeRecord(h, typeId, maxLoad));
    AppendKeepsOthers(s.ring, MsgStarting, h);
    assert Local(s, h);
    LocalKept(s, t, h);
    CountersKept(s, t);
  }

  lemma GiveUpKeeps(s: State, h: nat)
    requires Inv(s) && Enabled(s, GiveUp(h))
    ensures Inv(Apply(s, GiveUp(h)))
  {
    hide Proj, Counters;
    var t := Apply(s, GiveUp(h));
    assert Local(s, h);
    LocalKept(s, t, h);
    CountersKept(s, t);
  }

  lemma ReportKeeps(s: State, h: nat)
    requires Inv(s) && Enabled(s, Report(h))
    ensures Inv(Apply(s, Report(h)))
  {
    hide Proj, Counters;
    var t := Apply(s, Report(h));
    AppendKeepsOthers(s.ring, MsgReady, h);
    assert Local(s, h);
    LocalKept(s, t, h);
    CountersKept(s, t);
  }

  lemma SendSrvTimeKeeps(s: State, h: nat, time: nat)
    requires Inv(s) && Enabled(s, SendSrvTime(h, time))
    ensures Inv(Apply(s, SendSrvTime(h, time)))
  {
    hide Proj, Counters, LocalInv;
    var t := Apply(s, SendSrvTime(h, time));
    AppendKeepsOthers(s.ring, MsgSrvTime, h);
    assert Local(s, h);
    AfterSrvTime(s.infos[h].status, FlagOf(s, h), Proj(s.ring, h));
    LocalKept(s, t, h);
    CountersKept(s, t);
  }

  lemma LeaveKeeps(s: State, h: nat)
    requires Inv(s) && Enabled(s, Leave(h))
    ensures Inv(Apply(s, Leave(h)))
  {
    hide Proj, Counters, LocalInv;
    var t := Apply(s, Leave(h));
    AppendKeepsOthers(s.ring, MsgStopping, h);
    assert Local(s, h);
    AfterLeave(FlagOf(s, h), Proj(s.ring, h));
    LocalKept(s, t, h);
    CountersKept(s, t);
  }

  lemma AfterRaise(proc: Process, bk: nat, kinds: seq<MsgKind>)
    requires LocalInv(proc, Running, bk, kinds) && bk != 2
    ensures LocalInv(proc, Running, 1, kinds)
  {
  }

  lemma RaiseBlockKeeps(s: State, i: nat)
    requires Inv(s) && Enabled(s, RaiseBlock(i))
    ensures Inv(Apply(s, RaiseBlock(i)))
  {
    hide Proj, Counters, LocalInv;
    var t := Apply(s, RaiseBlock(i));
    var h := s.nfs[i].info.value;
    assert Local(s, h);
    AfterRaise(s.procs[h], s.nfs[i].bkFlag, Proj(s.ring, h));
    LocalKept(s, t, h);
    CountersKept(s, t);
  }

  /** The slots agree on everything the handshake and the counters depend on. */
  ghost predicate SameProtocol(s: State, t: State)
    requires Shape(s)
  {
    Shape(t) && t == s.(nfs := t.nfs) &&
    forall i :: 0 <= i < MAX_NFS ==>
      t.nfs[i].info == s.nfs[i].info && t.nfs[i].instId == s.nfs[i].instId && t.nfs[i].bkFlag == s.nfs[i].bkFlag
  }

  /** Overload marks, packet rates and scale messages never disturb the invariant. */
  lemma SameProtocolKeeps(s: State, t: State)
    requires Inv(s) && SameProtocol(s, t)
    ensures Inv(t)
  {
    hide Proj, Counters, LocalInv;
    assert Local(s, 0);
    LocalKept(s, t, 0);
    CountersKept(s, t);
  }

  lemma PopKeeps(s: State, i: nat)
    requires Inv(s) && i < MAX_NFS && s.nfs[i].scaleQ != []
    ensures Inv(s.(nfs := s.nfs[i := s.nfs[i].(scaleQ := s.nfs[i].scaleQ[1..])]))
  {
    hide Linked, Local, Counters;
    SameProtocolKeeps(s, s.(nfs := s.nfs[i := s.nfs[i].(scaleQ := s.nfs[i].scaleQ[1..])]));
  }

  lemma ScaleBlockKeeps(s: State, h: nat)
    requires Inv(s) && h < MAX_NFS && s.procs[h] == Reported && Owner(s, h) && FlagOf(s, h) == 1
    ensures Inv(Send(SetStatus(s, h, Blocked), MsgBlocking, h))
  {
    hide Proj, Counters, LocalInv;
    var t := Send(SetStatus(s, h, Blocked), MsgBlocking, h);
    assert Local(s, h);
    AppendKeepsOthers(s.ring, MsgBlocking, h);
    AfterScaleBlock(s.infos[h].status, Proj(s.ring, h));
    LocalKept(s, t, h);
    CountersKept(s, t);
  }

  lemma ScaleRunKeeps(s: State, h: nat)
    requires Inv(s) && h < MAX_NFS && s.procs[h] == Reported && s.infos[h].status == Blocked && FlagOf(s, h) == 2
    ensures Inv(Send(SetStatus(s, h, Running), MsgRunning, h))
  {
    hide Proj, Counters, LocalInv;
    var t := Send(SetStatus(s, h, Running), MsgRunning, h);
    assert Local(s, h);
    AppendKeepsOthers(s.ring, MsgRunning, h);
    AfterScaleRun(Proj(s.ring, h));
    LocalKept(s, t, h);
    CountersKept(s, t);
  }

  lemma PollKeeps(s: State, i: nat)
    requires Inv(s) && Enabled(s, Poll(i))
    ensures Inv(Apply(s, Poll(i)))
  {
    hide Counters, Local, Inv, SetStatus, Send;
    assert Shape(s) && Linked(s) by { InvParts(s); }
    PopKeeps(s, i);
    var t := s.(nfs := s.nfs[i := s.nfs[i].(scaleQ := s.nfs[i].scaleQ[1..])]);
    var m, h := s.nfs[i].scaleQ[0], s.nfs[i].info.value;
    if m.sig == ScaleBlock && m.instId == s.nfs[i].instId && s.nfs[i].bkFlag == 1 {
      ScaleBlockKeeps(t, h);
    } else if m.sig == ScaleRun && m.instId == s.nfs[i].instId && s.nfs[i].bkFlag == 2 && s.infos[h].status == Blocked {
      ScaleRunKeeps(t, h);
    }
  }

  lemma InvParts(s: State)
    requires Inv(s)
    ensures Shape(s) && PointersOk(s) && Linked(s) && Counters(s)
  {
  }

  // ---------- Counters ----------

  /** num counts the registered instances of a type, and no counter can wrap around. */
  lemma CountsMembers(s: State, y: nat)
    requires Shape(s) && y < MAX_NTS && TypeInv(s, y)
    ensures s.num[y] == |Members(s, y)|
    ensures s.avail[y] <= s.num[y]
    ensures s.num[y] - s.avail[y] == |Members(s, y) - Open(s, y)|
  {
    SizeOfDistinct(Ids(s, y), Members(s, y));
    assert Open(s, y) <= Members(s, y);
    assert Members(s, y) == Open(s, y) + (Members(s, y) - Open(s, y));
  }

  lemma CountsBounded(s: State)
    requires Shape(s) && Counters(s)
    ensures forall y :: 0 <= y < MAX_NTS ==> s.avail[y] <= s.num[y] <= MAX_NFS_PER_NT && s.num[y] <= s.numNfs
    ensures s.numNfs <= MAX_NFS_PER_NT * MAX_NTS
  {
    forall y | 0 <= y < MAX_NTS
      ensures s.avail[y] <= s.num[y] <= MAX_NFS_PER_NT
    {
      assert TypeInv(s, y);
      CountsMembers(s, y);
    }
    TotalBound(s.num, MAX_NFS_PER_NT);
  }

  /** Every instance but i is registered as before. */
  ghost predicate OthersRegistered(s: State, t: State, i: nat)
    requires Shape(s) && Shape(t)
  {
    forall j: nat :: j < MAX_NFS && j != i ==>
      Registered(s, j) == Registered(t, j) &&
      (Registered(s, j) ==> TypeOf(s, j) == TypeOf(t, j) && (s.nfs[j].bkFlag == 2 <==> t.nfs[j].bkFlag == 2))
  }

  /** The types other than y are not touched. */
  lemma OtherTypesKept(s: State, t: State, i: nat, y: nat)
    requires Shape(s) && Shape(t) && OthersRegistered(s, t, i) && y < MAX_NTS
    requires Registered(s, i) ==> TypeOf(s, i) == y
    requires Registered(t, i) ==> TypeOf(t, i) == y
    requires forall x :: 0 <= x < MAX_NTS && x != y ==>
               TypeInv(s, x) && t.nts[x] == s.nts[x] && t.num[x] == s.num[x] && t.avail[x] == s.avail[x]
    ensures forall x :: 0 <= x < MAX_NTS && x != y ==> TypeInv(t, x)
  {
    hide Registered, TypeOf, Holds, Distinct;
    forall x | 0 <= x < MAX_NTS && x != y
      ensures TypeInv(t, x)
    {
      assert Members(t, x) == Members(s, x);
      assert Open(t, x) == Open(s, x);
    }
  }

  lemma CountersAfterJoin(s: State, t: State, i: nat, y: nat)
    requires Shape(s) && Shape(t) && Counters(s) && OthersRegistered(s, t, i)
    requires 0 < i < MAX_NFS && y < MAX_NTS && s.num[y] < MAX_NFS_PER_NT
    requires !Registered(s, i) && Registered(t, i) && TypeOf(t, i) == y && t.nfs[i].bkFlag != 2
    requires t.nts == s.nts[y := PutInRow(s.nts[y], s.num[y], i)]
    requires t.num == s.num[y := Inc(s.num[y])] && t.avail == s.avail[y := Inc(s.avail[y])]
    requires t.numNfs == Inc(s.numNfs)
    ensures Counters(t)
  {
    hide Registered, TypeOf, Holds, Distinct, TypeInv;
    CountsBounded(s);
    OtherTypesKept(s, t, i, y);
    TotalOfUpdate(s.num, y, s.num[y] + 1);
    assert Members(t, y) == Members(s, y) + {i};
    assert Open(t, y) == Open(s, y) + {i};
    JoinedType(s, t, i, y);
  }

  lemma JoinedType(s: State, t: State, i: nat, y: nat)
    requires Shape(s) && Shape(t) && y < MAX_NTS && TypeInv(s, y) && s.num[y] < MAX_NFS_PER_NT && i > 0
    requires i !in Members(s, y) && Members(t, y) == Members(s, y) + {i}
    requires i !in Open(s, y) && Open(t, y) == Open(s, y) + {i}
    requires t.nts[y] == PutInRow(s.nts[y], s.num[y], i)
    requires t.num[y] == s.num[y] + 1 && t.avail[y] == s.avail[y] + 1
    ensures TypeInv(t, y)
  {
    hide Members, Open, Holds, Distinct;
    var ids := Ids(s, y);
    AppendToRow(s.nts[y], ids, i);
    DistinctAppend(ids, i);
    assert Ids(t, y) == ids + [i];
    assert forall j :: j in ids + [i] <==> j in ids || j == i;
  }

  lemma DistinctAppend(ids: seq<nat>, id: nat)
    requires Distinct(ids) && id !in ids
    ensures Distinct(ids + [id])
  {
  }

  lemma CountersAfterQuit(s: State, t: State, i: nat, y: nat)
    requires Shape(s) && Shape(t) && Counters(s) && OthersRegistered(s, t, i)
    requires 0 < i < MAX_NFS && y < MAX_NTS
    requires Registered(s, i) && TypeOf(s, i) == y && s.nfs[i].bkFlag != 2 && !Registered(t, i)
    requires t.nts == s.nts[y := RemoveFromRow(s.nts[y], i)]
    requires t.num == s.num[y := Dec(s.num[y])] && t.avail == s.avail[y := Dec(s.avail[y])]
    requires t.numNfs == Dec(s.numNfs)
    ensures Counters(t)
  {
    hide Registered, TypeOf, Distinct, RemoveFromRow, Without;
    CountsBounded(s);
    assert TypeInv(s, y);
    assert i in Members(s, y) && i in Open(s, y);
    var ids := Ids(s, y);
    var k :| 0 <= k < |ids| && ids[k] == i;
    RemoveFromRowIsWithout(s.nts[y], ids, k);
    WithoutMembers(ids, k);
    assert Ids(t, y) == Without(ids, k);
    assert Members(t, y) == Members(s, y) - {i};
    assert Open(t, y) == Open(s, y) - {i};
    OtherTypesKept(s, t, i, y);
    TotalOfUpdate(s.num, y, s.num[y] - 1);
  }

  lemma SameIds(s: State, t: State, y: nat)
    requires Shape(s) && Shape(t) && y < MAX_NTS && s.num[y] <= MAX_NFS_PER_NT
    requires t.nts[y] == s.nts[y] && t.num[y] == s.num[y]
    ensures Ids(t, y) == Ids(s, y)
  {
  }

  /** The flag of a registered instance moves into or out of the blocked state. */
  lemma CountersAfterFlag(s: State, t: State, i: nat, y: nat)
    requires Shape(s) && Shape(t) && Counters(s) && OthersRegistered(s, t, i)
    requires i < MAX_NFS && y < MAX_NTS
    requires Registered(s, i) && TypeOf(s, i) == y && Registered(t, i) && TypeOf(t, i) == y
    requires s.nfs[i].bkFlag == 2 <==> t.nfs[i].bkFlag != 2
    requires t.nts == s.nts && t.num == s.num && t.numNfs == s.numNfs
    requires t.avail == s.avail[y := if t.nfs[i].bkFlag == 2 then Dec(s.avail[y]) else Inc(s.avail[y])]
    ensures Counters(t)
  {
    hide Registered, TypeOf, Holds, Distinct, Ids;
    CountsBounded(s);
    assert TypeInv(s, y);
    OtherTypesKept(s, t, i, y);
    assert Members(t, y) == Members(s, y);
    assert Ids(t, y) == Ids(s, y) by { SameIds(s, t, y); }
    if t.nfs[i].bkFlag == 2 {
      assert i in Open(s, y);
      assert Open(t, y) == Open(s, y) - {i};
    } else {
      assert Open(t, y) == Open(s, y) + {i};
    }
  }

  // ---------- The handlers keep the invariant ----------

  /** The ring without its head: one message fewer about the head's record. */
  lemma HeadRemoved(ring: seq<Msg>)
    requires ring != []
    ensures var h := ring[0].info;
            Proj(ring, h) == [ring[0].kind] + Proj(ring[1..], h) &&
            Proj(ring, h)[1..] == Proj(ring[1..], h) &&
            forall g :: g != h ==> Proj(ring[1..], g) == Proj(ring, g)
  {
  }

  /** If the message makes an instance ready, its type has a row with room. */
  predicate HasRoom(s: State, m: Msg)
    requires Shape(s) && m.info < MAX_NFS
  {
    m.kind == MsgReady ==> RowHasRoom(s, s.infos[m.info].typeId)
  }

  lemma WaitingMeansKnown(proc: Process, status: Status, bk: nat, kinds: seq<MsgKind>)
    requires LocalInv(proc, status, bk, kinds) && kinds != []
    ensures proc != Free
    ensures kinds[0] == MsgStarting ==> status == WaitingForId
    ensures kinds[0] != MsgStarting ==> OwnerState(proc, status)
    ensures kinds[0] != MsgStarting ==> (kinds[0] == MsgReady <==> status == Starting)
  {
    if OneRunning(kinds) {
      var p :| 0 <= p < |kinds| && kinds[p] == MsgRunning && Quiet(kinds[..p]) && Quiet(kinds[p + 1..]);
      if p > 0 {
        QuietHead(kinds, p);
      }
    }
  }

  /** In a state that meets the invariant every pointer a handler follows is set and every
      index is in range; the only thing to ask for is a row with room. */
  lemma HandlersAreSafe(s: State)
    requires Inv(s) && s.ring != []
    ensures s.ring[0].info < MAX_NFS && (Safe(s, s.ring[0]) <==> HasRoom(s, s.ring[0]))
  {
    hide Proj, Counters, LocalInv;
    var m := s.ring[0];
    HeadRemoved(s.ring);
    assert Local(s, m.info);
    WaitingMeansKnown(s.procs[m.info], s.infos[m.info].status, FlagOf(s, m.info), Proj(s.ring, m.info));
  }

  lemma NextIdUnused(s: State)
    requires Shape(s) && Linked(s)
    ensures NextUnused(ValidFlags(s), s.nextId) == s.nextId
  {
  }

  lemma HandleStartingKeeps(s: State)
    requires Inv(s) && s.ring != [] && Safe(s, s.ring[0]) && s.ring[0].kind == MsgStarting
    ensures Inv(HandleNext(s))
  {
    hide Proj, Counters, NextUnused, ValidFlags;
    var h, t := s.ring[0].info, HandleNext(s);
    HeadRemoved(s.ring);
    assert Local(s, h);
    AtStarting(s.procs[h], s.infos[h].status, FlagOf(s, h), Proj(s.ring, h));
    NextIdUnused(s);
    LocalKept(s, t, h);
    CountersKept(s, t);
  }

  lemma HandleReadyKeeps(s: State)
    requires Inv(s) && s.ring != [] && Safe(s, s.ring[0]) && s.ring[0].kind == MsgReady
    ensures Inv(HandleNext(s))
  {
    hide Proj, Counters, LocalInv, Inc, PutInRow;
    var h, t := s.ring[0].info, HandleNext(s);
    HeadRemoved(s.ring);
    assert Local(s, h);
    AtReady(s.procs[h], s.infos[h].status, FlagOf(s, h), Proj(s.ring, h));
    LocalKept(s, t, h);
    CountersAfterJoin(s, t, s.infos[h].instId, s.infos[h].typeId);
  }

  lemma HandleStoppingKeeps(s: State)
    requires Inv(s) && s.ring != [] && Safe(s, s.ring[0]) && s.ring[0].kind == MsgStopping
    ensures Inv(HandleNext(s))
  {
    hide Proj, Counters, Dec, RemoveFromRow;
    var h, t := s.ring[0].info, HandleNext(s);
    HeadRemoved(s.ring);
    assert Local(s, h);
    AtStopping(s.procs[h], s.infos[h].status, FlagOf(s, h), Proj(s.ring, h));
    LocalKept(s, t, h);
    CountersAfterQuit(s, t, s.infos[h].instId, s.infos[h].typeId);
  }

  lemma HandleBlockingKeeps(s: State)
    requires Inv(s) && s.ring != [] && Safe(s, s.ring[0]) && s.ring[0].kind == MsgBlocking
    requires s.infos[s.ring[0].info].status == Blocked && FlagOf(s, s.ring[0].info) == 1
    ensures Inv(HandleNext(s))
  {
    hide Proj, Counters, Dec, LocalInv;
    var h, t := s.ring[0].info, HandleNext(s);
    HeadRemoved(s.ring);
    assert Local(s, h);
    AfterBlocking(s.procs[h], Proj(s.ring, h));
    LocalKept(s, t, h);
    CountersAfterFlag(s, t, s.infos[h].instId, s.infos[h].typeId);
  }

  /** A block message for an instance that is not about to block changes nothing. */
  lemma HandleStaleBlockingKeeps(s: State)
    requires Inv(s) && s.ring != [] && Safe(s, s.ring[0]) && s.ring[0].kind == MsgBlocking
    requires !(s.infos[s.ring[0].info].status == Blocked && FlagOf(s, s.ring[0].info) == 1)
    ensures Inv(HandleNext(s))
    ensures HandleNext(s) == s.(ring := s.ring[1..])
  {
    hide Proj, Counters, LocalInv;
    var h, t := s.ring[0].info, HandleNext(s);
    HeadRemoved(s.ring);
    assert Local(s, h);
    AfterIgnored(s.procs[h], s.infos[h].status, FlagOf(s, h), Proj(s.ring, h));
    LocalKept(s, t, h);
    CountersKept(s, t);
  }

  /** A run message finds its instance running with the flag still set, and clears it. */
  lemma HandleRunningKeeps(s: State)
    requires Inv(s) && s.ring != [] && Safe(s, s.ring[0]) && s.ring[0].kind == MsgRunning
    ensures s.infos[s.ring[0].info].status == Running && FlagOf(s, s.ring[0].info) == 2
    ensures Inv(HandleNext(s))
  {
    hide Proj, Counters, Inc, LocalInv;
    var h, t := s.ring[0].info, HandleNext(s);
    HeadRemoved(s.ring);
    assert Local(s, h);
    AtRunning(s.procs[h], s.infos[h].status, FlagOf(s, h), Proj(s.ring, h));
    LocalKept(s, t, h);
    CountersAfterFlag(s, t, s.infos[h].instId, s.infos[h].typeId);
  }

  /** A service-time message finds the time already in the record that the slot points to. */
  lemma HandleSrvTimeKeeps(s: State)
    requires Inv(s) && s.ring != [] && Safe(s, s.ring[0]) && s.ring[0].kind == MsgSrvTime
    ensures Inv(HandleNext(s))
    ensures HandleNext(s) == s.(ring := s.ring[1..])
  {
    hide Proj, Counters, LocalInv;
    var h, t := s.ring[0].info, HandleNext(s);
    HeadRemoved(s.ring);
    assert Local(s, h);
    AfterIgnored(s.procs[h], s.infos[h].status, FlagOf(s, h), Proj(s.ring, h));
    LocalKept(s, t, h);
    CountersKept(s, t);
  }
}

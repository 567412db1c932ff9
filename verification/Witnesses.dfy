/**
 Runs that come to the states in which the code falls short: the conditions under which it does
 well are not vacuous.
 */
module Witnesses {
  import opened Registry
  import opened Lifecycle
  import opened Paths
  import Runs

  /** What the system knows of one program: its record and its slot. */
  datatype Prog = Prog(proc: Process, instId: nat, status: Status, bkFlag: nat, scaleQ: seq<ScaleMsg>,
                       typeId: nat, maxLoad: nat, srvTime: nat, pktRate: nat)

  const Idle: Prog := Prog(Free, NO_ID, WaitingForId, 0, [], 0, 0, 0, 0)

  /** A program of type 1 with load limit 10 that has no load. */
  function Cell(proc: Process, instId: nat, status: Status, bkFlag: nat, scaleQ: seq<ScaleMsg>): Prog {
    Prog(proc, instId, status, bkFlag, scaleQ, 1, 10, 0, 0)
  }

  function InfoOf(c: Prog): Info {
    Info(c.instId, c.typeId, c.status, c.srvTime, c.maxLoad)
  }

  function SlotOf(c: Prog, h: nat, i: nat): Slot {
    Slot(if c.instId == i then Some(h) else None, i, 0, c.bkFlag, c.pktRate, 0, c.scaleQ)
  }

  /** Programs a and b with records 0 and 1, for slots 1 and 2, the ids of type 1, and nothing
      else. */
  function Pair(a: Prog, b: Prog, ids: seq<nat>, avail: nat, nextId: nat, ring: seq<Msg>): State
    requires |ids| <= MAX_NFS_PER_NT
  {
    State([InfoOf(a), InfoOf(b)] + seq(14, _ => InfoOf(Idle)), [a.proc, b.proc] + seq(14, _ => Free),
          [SlotOf(Idle, 0, 0), SlotOf(a, 0, 1), SlotOf(b, 1, 2)] + seq(13, i requires 0 <= i => SlotOf(Idle, 0, i + 3)),
          [seq(8, _ => 0), ids + seq(8 - |ids|, _ => 0)] + seq(14, _ => seq(8, _ => 0)),
          [0, |ids|] + seq(14, _ => 0), [0, avail] + seq(14, _ => 0), |ids|, nextId, ring)
  }

  lemma PairShape(a: Prog, b: Prog, ids: seq<nat>, avail: nat, nextId: nat, ring: seq<Msg>)
    requires |ids| <= MAX_NFS_PER_NT
    ensures var s := Pair(a, b, ids, avail, nextId, ring); Shape(s) && PointersOk(s)
  {
  }

  // ---------- The first program's steps ----------

  lemma Begins()
    ensures Reachable(Pair(Idle, Idle, [], 0, 1, []))
  {
    var s := Pair(Idle, Idle, [], 0, 1, []);
    PairShape(Idle, Idle, [], 0, 1, []);
    assert Runs.Initial(s);
    assert Path(s, [], s);
  }

  lemma Takes(y: nat, limit: nat)
    ensures Reachable(Pair(Cell(Started, NO_ID, WaitingForId, 0, []).(typeId := y, maxLoad := limit), Idle, [], 0, 1, [Msg(MsgStarting, 0)]))
  {
    hide Reachable;
    var s := Pair(Idle, Idle, [], 0, 1, []);
    var t := Pair(Cell(Started, NO_ID, WaitingForId, 0, []).(typeId := y, maxLoad := limit), Idle, [], 0, 1, [Msg(MsgStarting, 0)]);
    Begins();
    PairShape(Idle, Idle, [], 0, 1, []);
    ReachFurther(s, TakeRecord(0, y, limit));
    assert Apply(s, TakeRecord(0, y, limit)).infos == t.infos;
    assert Apply(s, TakeRecord(0, y, limit)).procs == t.procs;
    assert Apply(s, TakeRecord(0, y, limit)) == t;
  }

  lemma Assigned(y: nat, limit: nat)
    ensures Reachable(Pair(Cell(Started, 1, Starting, 0, []).(typeId := y, maxLoad := limit), Idle, [], 0, 2, []))
  {
    hide NfReady, NfStop, NfBlock, NfRun, NfSrvTime, Reachable;
    var s := Pair(Cell(Started, NO_ID, WaitingForId, 0, []).(typeId := y, maxLoad := limit), Idle, [], 0, 1, [Msg(MsgStarting, 0)]);
    var t := Pair(Cell(Started, 1, Starting, 0, []).(typeId := y, maxLoad := limit), Idle, [], 0, 2, []);
    Takes(y, limit);
    PairShape(Cell(Started, NO_ID, WaitingForId, 0, []).(typeId := y, maxLoad := limit), Idle, [], 0, 1, [Msg(MsgStarting, 0)]);
    assert ValidFlags(s)[1] == false;
    assert NextUnused(ValidFlags(s), 1) == 1;
    ReachFurther(s, Handle);
    assert Apply(s, Handle).infos == t.infos;
    assert Apply(s, Handle).nfs == t.nfs;
    assert Apply(s, Handle) == t;
  }

  lemma Reports(y: nat, limit: nat)
    ensures Reachable(Pair(Cell(Reported, 1, Starting, 0, []).(typeId := y, maxLoad := limit), Idle, [], 0, 2, [Msg(MsgReady, 0)]))
  {
    hide Reachable;
    var s := Pair(Cell(Started, 1, Starting, 0, []).(typeId := y, maxLoad := limit), Idle, [], 0, 2, []);
    var t := Pair(Cell(Reported, 1, Starting, 0, []).(typeId := y, maxLoad := limit), Idle, [], 0, 2, [Msg(MsgReady, 0)]);
    Assigned(y, limit);
    PairShape(Cell(Started, 1, Starting, 0, []).(typeId := y, maxLoad := limit), Idle, [], 0, 2, []);
    ReachFurther(s, Report(0));
    assert Apply(s, Report(0)).procs == t.procs;
    assert Apply(s, Report(0)) == t;
  }

  lemma Runs1(limit: nat)
    ensures Reachable(Pair(Cell(Reported, 1, Running, 0, []).(maxLoad := limit), Idle, [1], 1, 2, []))
  {
    hide NfStart, NfStop, NfBlock, NfRun, NfSrvTime, Reachable;
    var s := Pair(Cell(Reported, 1, Starting, 0, []).(maxLoad := limit), Idle, [], 0, 2, [Msg(MsgReady, 0)]);
    var t := Pair(Cell(Reported, 1, Running, 0, []).(maxLoad := limit), Idle, [1], 1, 2, []);
    Reports(1, limit);
    PairShape(Cell(Reported, 1, Starting, 0, []).(maxLoad := limit), Idle, [], 0, 2, [Msg(MsgReady, 0)]);
    ReachFurther(s, Handle);
    assert Apply(s, Handle).nts[1] == t.nts[1];
    assert Apply(s, Handle).infos == t.infos;
    assert Apply(s, Handle).nts == t.nts;
    assert Apply(s, Handle) == t;
  }

  lemma Raised()
    ensures Reachable(Pair(Cell(Reported, 1, Running, 1, []), Idle, [1], 1, 2, []))
  {
    hide Reachable;
    var s := Pair(Cell(Reported, 1, Running, 0, []), Idle, [1], 1, 2, []);
    var t := Pair(Cell(Reported, 1, Running, 1, []), Idle, [1], 1, 2, []);
    Runs1(10);
    PairShape(Cell(Reported, 1, Running, 0, []), Idle, [1], 1, 2, []);
    ReachFurther(s, RaiseBlock(1));
    assert Apply(s, RaiseBlock(1)).nfs == t.nfs;
    assert Apply(s, RaiseBlock(1)) == t;
  }

  lemma Notified()
    ensures Reachable(Pair(Cell(Reported, 1, Running, 1, [ScaleMsg(ScaleBlock, 1, 0)]), Idle, [1], 1, 2, []))
  {
    hide Reachable;
    var s := Pair(Cell(Reported, 1, Running, 1, []), Idle, [1], 1, 2, []);
    var t := Pair(Cell(Reported, 1, Running, 1, [ScaleMsg(ScaleBlock, 1, 0)]), Idle, [1], 1, 2, []);
    Raised();
    PairShape(Cell(Reported, 1, Running, 1, []), Idle, [1], 1, 2, []);
    ReachFurther(s, Notify(1, ScaleBlock, 0));
    assert Apply(s, Notify(1, ScaleBlock, 0)).nfs[1].scaleQ == t.nfs[1].scaleQ;
    assert Apply(s, Notify(1, ScaleBlock, 0)).nfs == t.nfs;
    assert Apply(s, Notify(1, ScaleBlock, 0)) == t;
  }

  lemma Polled()
    ensures Reachable(Pair(Cell(Reported, 1, Blocked, 1, []), Idle, [1], 1, 2, [Msg(MsgBlocking, 0)]))
  {
    hide Reachable;
    var s := Pair(Cell(Reported, 1, Running, 1, [ScaleMsg(ScaleBlock, 1, 0)]), Idle, [1], 1, 2, []);
    var t := Pair(Cell(Reported, 1, Blocked, 1, []), Idle, [1], 1, 2, [Msg(MsgBlocking, 0)]);
    Notified();
    PairShape(Cell(Reported, 1, Running, 1, [ScaleMsg(ScaleBlock, 1, 0)]), Idle, [1], 1, 2, []);
    ReachFurther(s, Poll(1));
    assert Apply(s, Poll(1)).nfs[1].scaleQ == t.nfs[1].scaleQ;
    assert Apply(s, Poll(1)).nfs == t.nfs;
    assert Apply(s, Poll(1)).infos == t.infos;
    assert Apply(s, Poll(1)) == t;
  }

  lemma BlockedForGood()
    ensures Reachable(Pair(Cell(Reported, 1, Blocked, 2, []), Idle, [1], 0, 2, []))
  {
    hide NfStart, NfReady, NfStop, NfRun, NfSrvTime, Reachable;
    var s := Pair(Cell(Reported, 1, Blocked, 1, []), Idle, [1], 1, 2, [Msg(MsgBlocking, 0)]);
    var t := Pair(Cell(Reported, 1, Blocked, 2, []), Idle, [1], 0, 2, []);
    Polled();
    PairShape(Cell(Reported, 1, Blocked, 1, []), Idle, [1], 1, 2, [Msg(MsgBlocking, 0)]);
    ReachFurther(s, Handle);
    assert Apply(s, Handle).infos == t.infos;
    assert Apply(s, Handle).nfs == t.nfs;
    assert Apply(s, Handle) == t;
  }

  lemma WakeSent()
    ensures Reachable(Pair(Cell(Reported, 1, Blocked, 2, [ScaleMsg(ScaleRun, 1, 0)]), Idle, [1], 0, 2, []))
  {
    hide Reachable;
    var s := Pair(Cell(Reported, 1, Blocked, 2, []), Idle, [1], 0, 2, []);
    var t := Pair(Cell(Reported, 1, Blocked, 2, [ScaleMsg(ScaleRun, 1, 0)]), Idle, [1], 0, 2, []);
    BlockedForGood();
    PairShape(Cell(Reported, 1, Blocked, 2, []), Idle, [1], 0, 2, []);
    ReachFurther(s, Notify(1, ScaleRun, 0));
    assert Apply(s, Notify(1, ScaleRun, 0)).nfs[1].scaleQ == t.nfs[1].scaleQ;
    assert Apply(s, Notify(1, ScaleRun, 0)).nfs == t.nfs;
    assert Apply(s, Notify(1, ScaleRun, 0)) == t;
  }

  lemma Woken()
    ensures Reachable(Pair(Cell(Reported, 1, Running, 2, []), Idle, [1], 0, 2, [Msg(MsgRunning, 0)]))
  {
    hide Reachable;
    var s := Pair(Cell(Reported, 1, Blocked, 2, [ScaleMsg(ScaleRun, 1, 0)]), Idle, [1], 0, 2, []);
    var t := Pair(Cell(Reported, 1, Running, 2, []), Idle, [1], 0, 2, [Msg(MsgRunning, 0)]);
    WakeSent();
    PairShape(Cell(Reported, 1, Blocked, 2, [ScaleMsg(ScaleRun, 1, 0)]), Idle, [1], 0, 2, []);
    ReachFurther(s, Poll(1));
    assert Apply(s, Poll(1)).nfs[1].scaleQ == t.nfs[1].scaleQ;
    assert Apply(s, Poll(1)).nfs == t.nfs;
    assert Apply(s, Poll(1)).infos == t.infos;
    assert Apply(s, Poll(1)) == t;
  }

  // ---------- The second program's steps ----------

  lemma SecondTakes(limit: nat)
    ensures Reachable(Pair(Cell(Reported, 1, Running, 0, []).(maxLoad := limit), Cell(Started, NO_ID, WaitingForId, 0, []).(maxLoad := limit), [1], 1, 2, [Msg(MsgStarting, 1)]))
  {
    hide Reachable;
    var s := Pair(Cell(Reported, 1, Running, 0, []).(maxLoad := limit), Idle, [1], 1, 2, []);
    var t := Pair(Cell(Reported, 1, Running, 0, []).(maxLoad := limit), Cell(Started, NO_ID, WaitingForId, 0, []).(maxLoad := limit), [1], 1, 2, [Msg(MsgStarting, 1)]);
    Runs1(limit);
    PairShape(Cell(Reported, 1, Running, 0, []).(maxLoad := limit), Idle, [1], 1, 2, []);
    ReachFurther(s, TakeRecord(1, 1, limit));
    assert Apply(s, TakeRecord(1, 1, limit)).infos == t.infos;
    assert Apply(s, TakeRecord(1, 1, limit)).procs == t.procs;
    assert Apply(s, TakeRecord(1, 1, limit)) == t;
  }

  lemma SecondAssigned(limit: nat)
    ensures Reachable(Pair(Cell(Reported, 1, Running, 0, []).(maxLoad := limit), Cell(Started, 2, Starting, 0, []).(maxLoad := limit), [1], 1, 3, []))
  {
    hide NfReady, NfStop, NfBlock, NfRun, NfSrvTime, Reachable;
    var s := Pair(Cell(Reported, 1, Running, 0, []).(maxLoad := limit), Cell(Started, NO_ID, WaitingForId, 0, []).(maxLoad := limit), [1], 1, 2, [Msg(MsgStarting, 1)]);
    var t := Pair(Cell(Reported, 1, Running, 0, []).(maxLoad := limit), Cell(Started, 2, Starting, 0, []).(maxLoad := limit), [1], 1, 3, []);
    SecondTakes(limit);
    PairShape(Cell(Reported, 1, Running, 0, []).(maxLoad := limit), Cell(Started, NO_ID, WaitingForId, 0, []).(maxLoad := limit), [1], 1, 2, [Msg(MsgStarting, 1)]);
    assert ValidFlags(s)[2] == false;
    assert NextUnused(ValidFlags(s), 2) == 2;
    ReachFurther(s, Handle);
    assert Apply(s, Handle).infos == t.infos;
    assert Apply(s, Handle).nfs == t.nfs;
    assert Apply(s, Handle) == t;
  }

  lemma SecondReports(limit: nat)
    ensures Reachable(Pair(Cell(Reported, 1, Running, 0, []).(maxLoad := limit), Cell(Reported, 2, Starting, 0, []).(maxLoad := limit), [1], 1, 3, [Msg(MsgReady, 1)]))
  {
    hide Reachable;
    var s := Pair(Cell(Reported, 1, Running, 0, []).(maxLoad := limit), Cell(Started, 2, Starting, 0, []).(maxLoad := limit), [1], 1, 3, []);
    var t := Pair(Cell(Reported, 1, Running, 0, []).(maxLoad := limit), Cell(Reported, 2, Starting, 0, []).(maxLoad := limit), [1], 1, 3, [Msg(MsgReady, 1)]);
    SecondAssigned(limit);
    PairShape(Cell(Reported, 1, Running, 0, []).(maxLoad := limit), Cell(Started, 2, Starting, 0, []).(maxLoad := limit), [1], 1, 3, []);
    ReachFurther(s, Report(1));
    assert Apply(s, Report(1)).procs == t.procs;
    assert Apply(s, Report(1)) == t;
  }

  lemma BothRun(limit: nat)
    ensures Reachable(Pair(Cell(Reported, 1, Running, 0, []).(maxLoad := limit), Cell(Reported, 2, Running, 0, []).(maxLoad := limit), [1, 2], 2, 3, []))
  {
    hide NfStart, NfStop, NfBlock, NfRun, NfSrvTime, Reachable;
    var s := Pair(Cell(Reported, 1, Running, 0, []).(maxLoad := limit), Cell(Reported, 2, Starting, 0, []).(maxLoad := limit), [1], 1, 3, [Msg(MsgReady, 1)]);
    var t := Pair(Cell(Reported, 1, Running, 0, []).(maxLoad := limit), Cell(Reported, 2, Running, 0, []).(maxLoad := limit), [1, 2], 2, 3, []);
    SecondReports(limit);
    PairShape(Cell(Reported, 1, Running, 0, []).(maxLoad := limit), Cell(Reported, 2, Starting, 0, []).(maxLoad := limit), [1], 1, 3, [Msg(MsgReady, 1)]);
    ReachFurther(s, Handle);
    assert Apply(s, Handle).nts[1] == t.nts[1];
    assert Apply(s, Handle).infos == t.infos;
    assert Apply(s, Handle).nts == t.nts;
    assert Apply(s, Handle) == t;
  }

  lemma FirstRaised()
    ensures Reachable(Pair(Cell(Reported, 1, Running, 1, []), Cell(Reported, 2, Running, 0, []), [1, 2], 2, 3, []))
  {
    hide Reachable;
    var s := Pair(Cell(Reported, 1, Running, 0, []), Cell(Reported, 2, Running, 0, []), [1, 2], 2, 3, []);
    var t := Pair(Cell(Reported, 1, Running, 1, []), Cell(Reported, 2, Running, 0, []), [1, 2], 2, 3, []);
    BothRun(10);
    PairShape(Cell(Reported, 1, Running, 0, []), Cell(Reported, 2, Running, 0, []), [1, 2], 2, 3, []);
    ReachFurther(s, RaiseBlock(1));
    assert Apply(s, RaiseBlock(1)).nfs == t.nfs;
    assert Apply(s, RaiseBlock(1)) == t;
  }

  lemma FirstNotified()
    ensures Reachable(Pair(Cell(Reported, 1, Running, 1, [ScaleMsg(ScaleBlock, 1, 0)]), Cell(Reported, 2, Running, 0, []), [1, 2], 2, 3, []))
  {
    hide Reachable;
    var s := Pair(Cell(Reported, 1, Running, 1, []), Cell(Reported, 2, Running, 0, []), [1, 2], 2, 3, []);
    var t := Pair(Cell(Reported, 1, Running, 1, [ScaleMsg(ScaleBlock, 1, 0)]), Cell(Reported, 2, Running, 0, []), [1, 2], 2, 3, []);
    FirstRaised();
    PairShape(Cell(Reported, 1, Running, 1, []), Cell(Reported, 2, Running, 0, []), [1, 2], 2, 3, []);
    ReachFurther(s, Notify(1, ScaleBlock, 0));
    assert Apply(s, Notify(1, ScaleBlock, 0)).nfs[1].scaleQ == t.nfs[1].scaleQ;
    assert Apply(s, Notify(1, ScaleBlock, 0)).nfs == t.nfs;
    assert Apply(s, Notify(1, ScaleBlock, 0)) == t;
  }

  lemma FirstPolled()
    ensures Reachable(Pair(Cell(Reported, 1, Blocked, 1, []), Cell(Reported, 2, Running, 0, []), [1, 2], 2, 3, [Msg(MsgBlocking, 0)]))
  {
    hide Reachable;
    var s := Pair(Cell(Reported, 1, Running, 1, [ScaleMsg(ScaleBlock, 1, 0)]), Cell(Reported, 2, Running, 0, []), [1, 2], 2, 3, []);
    var t := Pair(Cell(Reported, 1, Blocked, 1, []), Cell(Reported, 2, Running, 0, []), [1, 2], 2, 3, [Msg(MsgBlocking, 0)]);
    FirstNotified();
    PairShape(Cell(Reported, 1, Running, 1, [ScaleMsg(ScaleBlock, 1, 0)]), Cell(Reported, 2, Running, 0, []), [1, 2], 2, 3, []);
    ReachFurther(s, Poll(1));
    assert Apply(s, Poll(1)).nfs[1].scaleQ == t.nfs[1].scaleQ;
    assert Apply(s, Poll(1)).nfs == t.nfs;
    assert Apply(s, Poll(1)).infos == t.infos;
    assert Apply(s, Poll(1)) == t;
  }

  lemma SecondRaised()
    ensures Reachable(Pair(Cell(Reported, 1, Blocked, 1, []), Cell(Reported, 2, Running, 1, []), [1, 2], 2, 3, [Msg(MsgBlocking, 0)]))
  {
    hide Reachable;
    var s := Pair(Cell(Reported, 1, Blocked, 1, []), Cell(Reported, 2, Running, 0, []), [1, 2], 2, 3, [Msg(MsgBlocking, 0)]);
    var t := Pair(Cell(Reported, 1, Blocked, 1, []), Cell(Reported, 2, Running, 1, []), [1, 2], 2, 3, [Msg(MsgBlocking, 0)]);
    FirstPolled();
    PairShape(Cell(Reported, 1, Blocked, 1, []), Cell(Reported, 2, Running, 0, []), [1, 2], 2, 3, [Msg(MsgBlocking, 0)]);
    ReachFurther(s, RaiseBlock(2));
    assert Apply(s, RaiseBlock(2)).nfs == t.nfs;
    assert Apply(s, RaiseBlock(2)) == t;
  }

  lemma SecondNotified()
    ensures Reachable(Pair(Cell(Reported, 1, Blocked, 1, []), Cell(Reported, 2, Running, 1, [ScaleMsg(ScaleBlock, 2, 0)]), [1, 2], 2, 3, [Msg(MsgBlocking, 0)]))
  {
    hide Reachable;
    var s := Pair(Cell(Reported, 1, Blocked, 1, []), Cell(Reported, 2, Running, 1, []), [1, 2], 2, 3, [Msg(MsgBlocking, 0)]);
    var t := Pair(Cell(Reported, 1, Blocked, 1, []), Cell(Reported, 2, Running, 1, [ScaleMsg(ScaleBlock, 2, 0)]), [1, 2], 2, 3, [Msg(MsgBlocking, 0)]);
    SecondRaised();
    PairShape(Cell(Reported, 1, Blocked, 1, []), Cell(Reported, 2, Running, 1, []), [1, 2], 2, 3, [Msg(MsgBlocking, 0)]);
    ReachFurther(s, Notify(2, ScaleBlock, 0));
    assert Apply(s, Notify(2, ScaleBlock, 0)).nfs[2].scaleQ == t.nfs[2].scaleQ;
    assert Apply(s, Notify(2, ScaleBlock, 0)).nfs == t.nfs;
    assert Apply(s, Notify(2, ScaleBlock, 0)) == t;
  }

  lemma BothPolled()
    ensures Reachable(Pair(Cell(Reported, 1, Blocked, 1, []), Cell(Reported, 2, Blocked, 1, []), [1, 2], 2, 3, [Msg(MsgBlocking, 0), Msg(MsgBlocking, 1)]))
  {
    hide Reachable;
    var s := Pair(Cell(Reported, 1, Blocked, 1, []), Cell(Reported, 2, Running, 1, [ScaleMsg(ScaleBlock, 2, 0)]), [1, 2], 2, 3, [Msg(MsgBlocking, 0)]);
    var t := Pair(Cell(Reported, 1, Blocked, 1, []), Cell(Reported, 2, Blocked, 1, []), [1, 2], 2, 3, [Msg(MsgBlocking, 0), Msg(MsgBlocking, 1)]);
    SecondNotified();
    PairShape(Cell(Reported, 1, Blocked, 1, []), Cell(Reported, 2, Running, 1, [ScaleMsg(ScaleBlock, 2, 0)]), [1, 2], 2, 3, [Msg(MsgBlocking, 0)]);
    ReachFurther(s, Poll(2));
    assert Apply(s, Poll(2)).nfs[2].scaleQ == t.nfs[2].scaleQ;
    assert Apply(s, Poll(2)).nfs == t.nfs;
    assert Apply(s, Poll(2)).infos == t.infos;
    assert Apply(s, Poll(2)) == t;
  }

  // ---------- Service times and packet rates ----------

  lemma Timed(s: State)
    requires Reachable(s) && s.ring != [] && s.ring[0].kind == MsgSrvTime
    ensures Reachable(s.(ring := s.ring[1..]))
  {
    hide Reachable, Inv, Safe, HandleNext;
    ReachedByRun(s);
    HandlersAreSafe(s);
    HandleSrvTimeKeeps(s);
    InvParts(s);
    ReachFurther(s, Handle);
  }

  lemma OneTimed(limit: nat)
    ensures Reachable(Pair(Cell(Reported, 1, Running, 0, []).(maxLoad := limit, srvTime := 1), Idle, [1], 1, 2, []))
  {
    hide Reachable;
    var a := Cell(Reported, 1, Running, 0, []).(maxLoad := limit);
    var s := Pair(a, Idle, [1], 1, 2, []);
    var t := Pair(a.(srvTime := 1), Idle, [1], 1, 2, [Msg(MsgSrvTime, 0)]);
    Runs1(limit);
    PairShape(a, Idle, [1], 1, 2, []);
    ReachFurther(s, SendSrvTime(0, 1));
    assert Apply(s, SendSrvTime(0, 1)).infos == t.infos;
    assert Apply(s, SendSrvTime(0, 1)) == t;
    Timed(t);
    assert t.ring[1..] == [];
  }

  lemma BothTimed(limit: nat)
    ensures Reachable(Pair(Cell(Reported, 1, Running, 0, []).(maxLoad := limit, srvTime := 1),
                           Cell(Reported, 2, Running, 0, []).(maxLoad := limit, srvTime := 1), [1, 2], 2, 3, []))
  {
    hide Reachable;
    var a, b := Cell(Reported, 1, Running, 0, []).(maxLoad := limit), Cell(Reported, 2, Running, 0, []).(maxLoad := limit);
    var s := Pair(a, b, [1, 2], 2, 3, []);
    var t := Pair(a.(srvTime := 1), b, [1, 2], 2, 3, [Msg(MsgSrvTime, 0)]);
    BothRun(limit);
    PairShape(a, b, [1, 2], 2, 3, []);
    ReachFurther(s, SendSrvTime(0, 1));
    assert Apply(s, SendSrvTime(0, 1)).infos == t.infos;
    assert Apply(s, SendSrvTime(0, 1)) == t;
    Timed(t);
    assert t.ring[1..] == [];
    SecondTimed(a.(srvTime := 1), b);
  }

  lemma SecondTimed(a: Prog, b: Prog)
    requires Reachable(Pair(a, b, [1, 2], 2, 3, [])) && b.proc == Reported
    ensures Reachable(Pair(a, b.(srvTime := 1), [1, 2], 2, 3, []))
  {
    hide Reachable;
    var s := Pair(a, b, [1, 2], 2, 3, []);
    var t := Pair(a, b.(srvTime := 1), [1, 2], 2, 3, [Msg(MsgSrvTime, 1)]);
    PairShape(a, b, [1, 2], 2, 3, []);
    ReachFurther(s, SendSrvTime(1, 1));
    assert Apply(s, SendSrvTime(1, 1)).infos == t.infos;
    assert Apply(s, SendSrvTime(1, 1)) == t;
    Timed(t);
    assert t.ring[1..] == [];
  }

  /** Both run, with a service time of 1 and any packet rates. */
  lemma BothRated(limit: nat, p: nat, q: nat)
    ensures Reachable(Pair(Cell(Reported, 1, Running, 0, []).(maxLoad := limit, srvTime := 1, pktRate := p),
                           Cell(Reported, 2, Running, 0, []).(maxLoad := limit, srvTime := 1, pktRate := q), [1, 2], 2, 3, []))
  {
    hide Reachable;
    var a := Cell(Reported, 1, Running, 0, []).(maxLoad := limit, srvTime := 1);
    var b := Cell(Reported, 2, Running, 0, []).(maxLoad := limit, srvTime := 1);
    var s := Pair(a, b, [1, 2], 2, 3, []);
    var t := Pair(a.(pktRate := p), b, [1, 2], 2, 3, []);
    var u := Pair(a.(pktRate := p), b.(pktRate := q), [1, 2], 2, 3, []);
    BothTimed(limit);
    PairShape(a, b, [1, 2], 2, 3, []);
    ReachFurther(s, Rate(1, p));
    assert Apply(s, Rate(1, p)).nfs == t.nfs && Apply(s, Rate(1, p)) == t;
    PairShape(a.(pktRate := p), b, [1, 2], 2, 3, []);
    ReachFurther(t, Rate(2, q));
    assert Apply(t, Rate(2, q)).nfs == u.nfs && Apply(t, Rate(2, q)) == u;
  }
}

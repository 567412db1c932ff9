/**
 The states of module Witnesses, and what goes wrong in each.
 */
module Shortfalls {
  import opened Registry
  import opened Lifecycle
  import opened Paths
  import opened Witnesses
  import Runs
  import Router
  import ScaleThread
  import LoadCheck
  import Overload
  import ScaleSteps

  /** An instance that has its id but was never ready. */
  const Unready: State := Pair(Cell(Started, 1, Starting, 0, []), Idle, [], 0, 2, [])

  /** The only instance of its type is blocked for good. */
  const WhollyBlocked: State := Pair(Cell(Reported, 1, Blocked, 2, []), Idle, [1], 0, 2, [])

  /** The instance runs again, but the manager has not handled its message. */
  const Waking: State := Pair(Cell(Reported, 1, Running, 2, []), Idle, [1], 0, 2, [Msg(MsgRunning, 0)])

  /** Both instances are blocked, and the manager has not handled either message. */
  const BothBlocking: State :=
    Pair(Cell(Reported, 1, Blocked, 1, []), Cell(Reported, 2, Blocked, 1, []), [1, 2], 2, 3,
         [Msg(MsgBlocking, 0), Msg(MsgBlocking, 1)])

  /** Stopping an instance that never was ready makes the counters wrong. */
  lemma UnreadyStop()
    ensures Reachable(Unready) && Inv(Unready) && Owner(Unready, 0) && FlagOf(Unready, 0) != 2
    ensures !Counters(NfStop(Unready, 0))
  {
    hide Inv, Reachable;
    Assigned(1, 10);
    ReachedByRun(Unready);
    InvParts(Unready);
    Runs.StopKeepsCountersIff(Unready, 0);
  }

  /** So does stopping a blocked one. */
  lemma BlockedStop()
    ensures Reachable(WhollyBlocked) && Inv(WhollyBlocked) && Owner(WhollyBlocked, 0) && FlagOf(WhollyBlocked, 0) == 2
    ensures !Counters(NfStop(WhollyBlocked, 0))
  {
    hide Inv, Reachable;
    BlockedForGood();
    ReachedByRun(WhollyBlocked);
    InvParts(WhollyBlocked);
    Runs.StopKeepsCountersIff(WhollyBlocked, 0);
  }

  /** Raising the block flag of an instance that has just woken up makes the counters wrong. */
  lemma WakingRaised()
    ensures Reachable(Waking) && Inv(Waking) && PointersOk(Waking) && Valid(Waking, 1) && Waking.nfs[1].bkFlag == 2
    ensures !Counters(Waking.(nfs := Waking.nfs[1 := Waking.nfs[1].(bkFlag := 1)]))
    ensures !Inv(ScaleThread.BlockNow(Waking, 1))
  {
    hide Inv, Reachable;
    Woken();
    ReachedByRun(Waking);
    InvParts(Waking);
    Runs.RaiseKeepsCountersIff(Waking, 1);
    ScaleThread.BlockNowKeepsIff(Waking, 1);
  }

  /** With no message queued, the search for an instance for a packet of a wholly blocked type
      does not end, whatever its hash. */
  lemma WhollyBlockedSearch(rss: nat)
    ensures Reachable(WhollyBlocked) && Inv(WhollyBlocked) && WhollyBlocked.ring == [] && PointersOk(WhollyBlocked)
    ensures WhollyBlocked.num[1] == 1 && Router.Hashed(WhollyBlocked, 1, rss) < MAX_NFS
    ensures !Router.Terminates(WhollyBlocked, 1, rss)
  {
    hide Inv, Reachable;
    BlockedForGood();
    ReachedByRun(WhollyBlocked);
    InvParts(WhollyBlocked);
    var s := WhollyBlocked;
    assert s.nts[1][0] == 1 && rss % 1 == 0;
    forall i: nat | i < MAX_NFS
      ensures !Router.Usable(s, 1, i)
    {
    }
  }

  /** With both instances about to be blocked, the fifth load check passes and the search for an
      instance to block finds none in the row. */
  lemma BothBlockingSearch()
    ensures Reachable(BothBlocking) && Inv(BothBlocking) && ScaleSteps.Rowed(BothBlocking)
    ensures ScaleSteps.Searches(BothBlocking, 1, 4, 0) && ScaleSteps.Choice(BothBlocking, 1) == None
  {
    hide Inv, Reachable, Pair;
    BothPolled();
    ReachedByRun(BothBlocking);
    InvParts(BothBlocking);
    NoneRuns();
    ScaleSteps.InvRowed(BothBlocking);
    SearchedInVain(BothBlocking);
  }

  lemma NoneRuns()
    ensures var s := BothBlocking;
            Shape(s) && PointersOk(s) && s.num[1] == 2 && s.avail[1] == 2 &&
            forall i: nat :: i < MAX_NFS ==> !Valid(s, i)
  {
    var s := BothBlocking;
    forall i: nat | i < MAX_NFS
      ensures !Valid(s, i)
    {
    }
  }

  /** With no instance running there is no load to count and nothing to find. */
  lemma SearchedInVain(s: State)
    requires ScaleSteps.Rowed(s) && s.num[1] == 2 && s.avail[1] == 2 && forall i: nat :: i < MAX_NFS ==> !Valid(s, i)
    ensures ScaleSteps.Searches(s, 1, 4, 0) && ScaleSteps.Choice(s, 1) == None
  {
    hide ScaleThread.LoadOf, ScaleThread.LastRunning;
    NoLoad(s, 16);
    assert ScaleSteps.RowOk(s, 1);
    ScaleThread.LastRunningFinds(s, 1, s.num[1]);
  }

  lemma {:induction false} NoLoad(s: State, n: nat)
    requires Shape(s) && PointersOk(s) && n <= MAX_NFS && forall i: nat :: i < MAX_NFS ==> !Valid(s, i)
    ensures ScaleThread.LoadOf(s, 1, n, 0) == (0, 0)
  {
    if n > 0 {
      NoLoad(s, n - 1);
    }
  }

  // ---------- A type without a row ----------

  /** An instance of type 16 has reported ready. */
  const Untyped: State :=
    Pair(Cell(Reported, 1, Starting, 0, []).(typeId := 16), Idle, [], 0, 2, [Msg(MsgReady, 0)])

  /** Its handler would write outside the type map. */
  lemma ReadyWithoutRow()
    ensures Reachable(Untyped) && Inv(Untyped) && Untyped.ring == [Msg(MsgReady, 0)] && !Safe(Untyped, Msg(MsgReady, 0))
  {
    hide Inv, Reachable;
    Reports(16, 10);
    ReachedByRun(Untyped);
  }

  // ---------- A load limit of zero ----------

  /** A running instance with load limit 0 has reported its service time. */
  const Unlimited: State :=
    Pair(Cell(Reported, 1, Running, 0, []).(maxLoad := 0, srvTime := 1), Idle, [1], 1, 2, [])

  /** With no message queued, the overload check divides by zero. */
  lemma UnlimitedDivides()
    ensures Reachable(Unlimited) && Inv(Unlimited) && Unlimited.ring == [] && ScaleThread.Typed(Unlimited)
    ensures !ScaleThread.Rated(Unlimited) && 0 in Overload.Divisors(Unlimited, MAX_NFS)
  {
    hide Inv, Reachable;
    OneTimed(0);
    ReachedByRun(Unlimited);
    ScaleThread.InvTyped(Unlimited);
    assert Valid(Unlimited, 1);
    Overload.DividesByNoZeroIff(Unlimited);
  }

  // ---------- An overloaded type that looks spare ----------

  /** Two running instances with load limit 10000 and loads 20000 and 10001. */
  const Wrapped: State :=
    Pair(Cell(Reported, 1, Running, 0, []).(maxLoad := 10000, srvTime := 1, pktRate := 20000),
         Cell(Reported, 2, Running, 0, []).(maxLoad := 10000, srvTime := 1, pktRate := 10001), [1, 2], 2, 3, [])

  /** The two can carry 20000, the load is 30001, and the test of the load check passes. */
  lemma OverloadLooksSpare()
    ensures Reachable(Wrapped) && Inv(Wrapped) && Wrapped.ring == [] && PointersOk(Wrapped)
    ensures LoadCheck.Room(Wrapped, 1, 0) == -10001
    ensures ScaleThread.Spare(Wrapped, 1, 0) && !LoadCheck.Capacity(Wrapped, 1, 0)
  {
    hide Inv, Reachable, Pair, ScaleThread.Spare, LoadCheck.TrueLoad, ScaleThread.LoadOf;
    BothRated(10000, 20000, 10001);
    ReachedByRun(Wrapped);
    InvParts(Wrapped);
    WrappedLoads(13);
    assert Wrapped.avail[1] == 2 && Wrapped.ring == [] by { WrappedCounts(); }
    LoadCheck.SpareIs(Wrapped, 1, 0);
  }

  lemma WrappedCounts()
    ensures |Wrapped.avail| == 16 && Wrapped.avail[1] == 2 && Wrapped.ring == []
  {
  }

  lemma {:induction false} WrappedLoads(n: nat)
    requires n <= 13
    ensures Shape(Wrapped) && PointersOk(Wrapped)
    ensures LoadCheck.TrueLoad(Wrapped, 1, 3 + n) == 30001 && ScaleThread.LoadOf(Wrapped, 1, 3 + n, 0) == (30001, 10000)
  {
    var s := Wrapped;
    if n == 0 {
      assert !ScaleThread.Counted(s, 1, 0) && ScaleThread.Counted(s, 1, 1) && ScaleThread.Counted(s, 1, 2);
      assert LoadCheck.TrueLoad(s, 1, 0) == 0 && ScaleThread.LoadOf(s, 1, 0, 0) == (0, 0);
      assert LoadCheck.TrueLoad(s, 1, 1) == 0 && ScaleThread.LoadOf(s, 1, 1, 0) == (0, 0);
      assert LoadCheck.TrueLoad(s, 1, 2) == 20000 && ScaleThread.LoadOf(s, 1, 2, 0) == (20000, 10000);
    } else {
      WrappedLoads(n - 1);
      assert !ScaleThread.Counted(s, 1, 2 + n);
    }
  }
}

/**
 One pass of the scale thread said slot by slot: the marks, numbers and flags it leaves, exactly the
 messages it sends to each instance, and which of the load checks that pass lead to a search.
 */
module PassSlots {
  import opened Registry
  import opened Scale
  import opened ScaleThread
  import opened ScaleSteps
  import opened Overload
  import opened PassSteps
  import Lifecycle
  import Runs

  // ---------- The overload check and the announcements ----------

  /** ol_flag after the overload check. */
  function MarkOf(s: State, used: seq<nat>, i: nat): nat
    requires Shape(s) && PointersOk(s) && i < MAX_NFS == |used|
  {
    if Overloaded(s, i) || NewlyFull(s, used, i) then 1 else s.nfs[i].olFlag
  }

  /** scale_num after the overload check. */
  function NumberOf(s: State, used: seq<nat>, i: nat): nat
    requires Rated(s) && i < MAX_NFS == |used|
  {
    if Overloaded(s, i) then NewInstances(s, i)
    else if NewlyFull(s, used, i) && s.avail[s.infos[s.nfs[i].info.value].typeId] == 0 then Inc(s.nfs[i].scaleNum)
    else s.nfs[i].scaleNum
  }

  /** Some running instance is overloaded, newly full, or still marked. */
  predicate Alarm(s: State, used: seq<nat>)
    requires Shape(s) && PointersOk(s) && |used| == MAX_NFS
  {
    exists i: nat :: i < MAX_NFS && Valid(s, i) && MarkOf(s, used, i) == 1
  }

  /** What the announcements add to the queue of instance i: one message to scale up when there is an
      alarm and the instance has a number, and one to block when its flag is 1. */
  function Announcements(s: State, used: seq<nat>, i: nat): seq<ScaleMsg>
    requires Rated(s) && i < MAX_NFS == |used|
  {
    (if Alarm(s, used) && Valid(s, i) && NumberOf(s, used, i) != 0 then [ScaleMsg(ScaleUp, i, NumberOf(s, used, i))] else []) +
    (if Valid(s, i) && s.nfs[i].bkFlag == 1 then [ScaleMsg(ScaleBlock, i, 0)] else [])
  }

  lemma AlarmIsSignal(s: State, used: seq<nat>)
    requires Rated(s) && |used| == MAX_NFS
    ensures UpSignal(FullRings(Overloads(s, MAX_NFS), used, MAX_NFS)) <==> Alarm(s, used)
  {
    hide Overloads, FullRings, Overloaded, NewlyFull, Wakes, NewInstances, OnlyScaling;
    var t := FullRings(Overloads(s, MAX_NFS), used, MAX_NFS);
    forall i: nat | i < MAX_NFS
      ensures t.nfs[i].olFlag == MarkOf(s, used, i) && Valid(t, i) == Valid(s, i)
    {
      ChecksExactly(s, used, i);
      SameValid(s, Overloads(s, MAX_NFS), i);
      SameValid(Overloads(s, MAX_NFS), t, i);
    }
  }

  lemma SameValid(s: State, t: State, i: nat)
    requires Shape(s) && PointersOk(s) && OnlyScaling(s, t) && i < MAX_NFS
    ensures PointersOk(t) && Valid(t, i) == Valid(s, i) && t.nfs[i].bkFlag == s.nfs[i].bkFlag
  {
  }

  lemma UpAdds(t: State, i: nat)
    requires Shape(t) && PointersOk(t) && i < MAX_NFS
    ensures UpMessages(t).nfs[i] ==
            if Valid(t, i) && t.nfs[i].scaleNum != 0 then Post(t.nfs[i], ScaleUp, i, t.nfs[i].scaleNum) else t.nfs[i]
    ensures BlockMessages(t).nfs[i] == if Valid(t, i) && t.nfs[i].bkFlag == 1 then Post(t.nfs[i], ScaleBlock, i, 0) else t.nfs[i]
  {
  }

  /** What precedes the load checks leaves these marks, numbers and messages. */
  lemma AnnouncedSlot(s: State, used: seq<nat>, i: nat)
    requires Rated(s) && i < MAX_NFS == |used|
    ensures var slot := Announced(s, used).nfs[i];
            slot.olFlag == MarkOf(s, used, i) && slot.scaleNum == NumberOf(s, used, i) &&
            slot.scaleQ == s.nfs[i].scaleQ + Wakes(s, MAX_NFS, i) + Announcements(s, used, i)
  {
    hide Overloads, FullRings, Overloaded, NewlyFull, Wakes, NewInstances, OnlyScaling, UpSignal, UpMessages, BlockMessages,
         Alarm, AllTold;
    var t := FullRings(Overloads(s, MAX_NFS), used, MAX_NFS);
    ChecksExactly(s, used, i);
    AlarmIsSignal(s, used);
    SameValid(s, Overloads(s, MAX_NFS), i);
    SameValid(Overloads(s, MAX_NFS), t, i);
    UpAdds(t, i);
    var u := if UpSignal(t) then UpMessages(t) else t;
    if UpSignal(t) {
      SameValid(t, u, i);
    }
    StillPointers(t, u);
    UpAdds(u, i);
  }

  // ---------- The types ----------

  /** What the load checks of the first n types send to instance i: SCALE_RUN when it is the one to wake
      of a type that has instances but none available, SCALE_BLOCK when it is picked. */
  function TypeMessages(s: State, n: nat, cnter: nat, stale: nat, i: nat): seq<ScaleMsg>
    requires Rowed(s) && n <= MAX_NTS
  {
    if n == 0 then []
    else
      TypeMessages(s, n - 1, cnter, stale, i) +
      (if s.num[n - 1] > 0 && s.avail[n - 1] == 0 && i in Woken(s, n - 1, 1) then [ScaleMsg(ScaleRun, i, 0)] else []) +
      (if Picks(s, n - 1, cnter, stale, i) then [ScaleMsg(ScaleBlock, i, 0)] else [])
  }

  lemma {:induction false} SameBlockedFlags(s: State, t: State, y: nat, n: nat)
    requires Shape(s) && PointersOk(s) && OnlyFlags(s, t) && n <= MAX_NFS
    ensures PointersOk(t) && BlockedIds(t, y, n) == BlockedIds(s, y, n)
  {
    if n > 0 {
      SameBlockedFlags(s, t, y, n - 1);
    }
  }

  /** Who is woken depends on the records only. */
  lemma SameWoken(s: State, t: State, y: nat)
    requires Shape(s) && PointersOk(s) && OnlyFlags(s, t)
    ensures PointersOk(t) && Woken(t, y, 1) == Woken(s, y, 1)
  {
    hide BlockedIds;
    SameBlockedFlags(s, t, y, MAX_NFS);
  }

  lemma TypeStepSlot(s: State, y: nat, cnter: nat, stale: nat, i: nat)
    requires Rowed(s) && y < MAX_NTS && (Searches(s, y, cnter, stale) ==> Choice(s, y).Some?) && i < MAX_NFS
    ensures var slot := TypeStep(s, y, cnter, stale).nfs[i];
            slot.olFlag == s.nfs[i].olFlag && slot.scaleNum == s.nfs[i].scaleNum &&
            slot.scaleQ == s.nfs[i].scaleQ +
              (if s.num[y] > 0 && s.avail[y] == 0 && i in Woken(s, y, 1) then [ScaleMsg(ScaleRun, i, 0)] else []) +
              (if Searches(s, y, cnter, stale) && Choice(s, y) == Some(i) then [ScaleMsg(ScaleBlock, i, 0)] else [])
  {
    hide Spare, Woken, LastRunning, RowOk;
    assert s.nfs[i].scaleQ + [] + [] == s.nfs[i].scaleQ;
  }

  lemma {:induction false} TypeStepsSlot(s: State, n: nat, cnter: nat, stale: nat, i: nat)
    requires Rowed(s) && n <= MAX_NTS && SearchesEnd(s, n, cnter, stale) && i < MAX_NFS
    ensures var slot := TypeSteps(s, n, cnter, stale).nfs[i];
            slot.olFlag == s.nfs[i].olFlag && slot.scaleNum == s.nfs[i].scaleNum &&
            slot.scaleQ == s.nfs[i].scaleQ + TypeMessages(s, n, cnter, stale, i)
  {
    hide AllTold, RowOk, TypeStep, Searches, Choice, OnlyScaling, Woken;
    var q := s.nfs[i].scaleQ;
    if n == 0 {
      assert q + [] == q;
    } else {
      FewerSearches(s, n - 1, cnter, stale);
      TypeStepsSlot(s, n - 1, cnter, stale, i);
      var t, c := TypeSteps(s, n - 1, cnter, stale), CounterAt(s, n - 1, cnter, stale);
      SameSearch(s, t, n - 1, c, stale);
      SameWoken(s, t, n - 1);
      TypeStepSlot(t, n - 1, c, stale, i);
      assert Picks(s, n - 1, cnter, stale, i) <==> Searches(s, n - 1, c, stale) && Choice(s, n - 1) == Some(i);
    }
  }

  lemma {:induction false} SameTypeMessages(s: State, t: State, n: nat, m: nat, cnter: nat, stale: nat, i: nat)
    requires Rowed(s) && OnlyFlags(s, t) && n <= m <= MAX_NTS
    ensures Rowed(t) && TypeMessages(t, n, cnter, stale, i) == TypeMessages(s, n, cnter, stale, i)
  {
    hide Woken, Picks, RowOk, OnlyFlags, SearchesEnd;
    SamePicks(s, t, m, cnter, stale);
    if n > 0 {
      SameTypeMessages(s, t, n - 1, m, cnter, stale, i);
      SameWoken(s, t, n - 1);
      FlagsKeepCounts(s, t);
    }
  }

  lemma FlagsKeepCounts(s: State, t: State)
    requires Shape(s) && OnlyFlags(s, t)
    ensures t.num == s.num && t.avail == s.avail
  {
  }

  // ---------- The pass ----------

  /** The pass leaves on every slot exactly these marks, numbers, flags and messages, and nothing else
      changes. */
  lemma PassSlot(s: State, used: seq<nat>, n: nat, cnter: nat, stale: nat, i: nat)
    requires Rowed(s) && Rated(s) && |used| == MAX_NFS && n <= MAX_NTS && SearchesEnd(s, n, cnter, stale) && i < MAX_NFS
    ensures var picked := exists y: nat :: y < n && Picks(s, y, cnter, stale, i);
            AfterPass(s, used, n, cnter, stale).nfs[i] ==
            s.nfs[i].(olFlag := MarkOf(s, used, i), scaleNum := NumberOf(s, used, i), bkFlag := if picked then 1 else s.nfs[i].bkFlag,
                      scaleQ := s.nfs[i].scaleQ + Wakes(s, MAX_NFS, i) + Announcements(s, used, i) +
                                TypeMessages(s, n, cnter, stale, i))
  {
    hide AllTold, RowOk, Searches, Choice, Woken, MarkOf, NumberOf, Announcements, Wakes, Announced, TypeSteps, TypeMessages,
         SearchesEnd, Picks, CounterAt, Rated;
    var t := Announced(s, used);
    AnnouncedSlot(s, used, i);
    SamePicks(s, t, n, cnter, stale);
    SameTypeMessages(s, t, n, n, cnter, stale, i);
    TypeStepsSlot(t, n, cnter, stale, i);
    FlagsAfter(t, n, cnter, stale, i);
    KeptFields(s, t, i);
    KeptFields(t, TypeSteps(t, n, cnter, stale), i);
    ScalingKeepsFlag(s, t, i);
  }

  lemma KeptFields(s: State, t: State, i: nat)
    requires Shape(s) && OnlyFlags(s, t) && i < MAX_NFS
    ensures var a, b := s.nfs[i], t.nfs[i];
            b == a.(olFlag := b.olFlag, scaleNum := b.scaleNum, bkFlag := b.bkFlag, scaleQ := b.scaleQ)
  {
  }

  lemma ScalingKeepsFlag(s: State, t: State, i: nat)
    requires Shape(s) && OnlyScaling(s, t) && i < MAX_NFS
    ensures t.nfs[i].bkFlag == s.nfs[i].bkFlag
  {
  }

  lemma {:induction false} WakesAParent(s: State, n: nat, cnter: nat, stale: nat, y: nat, i: nat)
    requires Rowed(s) && y < n <= MAX_NTS && s.num[y] > 0 && s.avail[y] == 0 && i in Woken(s, y, 1)
    ensures ScaleMsg(ScaleRun, i, 0) in TypeMessages(s, n, cnter, stale, i)
  {
    hide Woken, Picks, RowOk;
    if y < n - 1 {
      WakesAParent(s, n - 1, cnter, stale, y, i);
    }
  }

  /** With no message queued, a type that is wholly blocked gets one instance told to run, the one in
      the lowest slot. */
  lemma PassWakesParent(s: State, used: seq<nat>, n: nat, cnter: nat, stale: nat, y: nat)
    requires Lifecycle.Inv(s) && Rowed(s) && Rated(s) && |used| == MAX_NFS && s.ring == []
    requires y < n <= MAX_NTS && s.num[y] > 0 && s.avail[y] == 0
    ensures SearchesEnd(s, n, cnter, stale)
    ensures exists i :: i in Lifecycle.Members(s, y) && i < MAX_NFS && (forall j :: j in Lifecycle.Members(s, y) ==> i <= j) &&
              ScaleMsg(ScaleRun, i, 0) in AfterPass(s, used, n, cnter, stale).nfs[i].scaleQ
  {
    hide Lifecycle.Inv, Woken, Lifecycle.Members, AfterPass, SearchesEnd, PicksOpen, Rated, RowOk, TypeMessages, Wakes,
         Announcements, MarkOf, NumberOf, Picks;
    SettledPass(s, n, cnter, stale);
    ParentAnswers(s, y);
    var i := Woken(s, y, 1)[0];
    assert i in Woken(s, y, 1);
    LowestWoken(s, y, i);
    WakesAParent(s, n, cnter, stale, y, i);
    PassSlot(s, used, n, cnter, stale, i);
  }

  lemma LowestWoken(s: State, y: nat, i: nat)
    requires Lifecycle.Inv(s) && s.ring == [] && y < MAX_NTS && s.avail[y] == 0 && i in Woken(s, y, 1) && |Woken(s, y, 1)| == 1
    ensures i < MAX_NFS && forall j :: j in Lifecycle.Members(s, y) ==> i <= j
  {
    hide Lifecycle.Local, Lifecycle.Counters, Woken;
    Runs.SettledCounts(s, y);
    Runs.CountersAgree(s, y);
    WokenCount(s, y, 1);
    var woken := Woken(s, y, 1);
    assert Lifecycle.Open(s, y) == {};
    forall j | j in Lifecycle.Members(s, y)
      ensures i <= j
    {
      assert j !in Lifecycle.Open(s, y);
      assert j in Runs.Closed(s, y);
      assert IsBlocked(s, y, j);
      assert j < i ==> j in woken;
      assert j in woken ==> j == i;
    }
  }

  // ---------- Every fifth check ----------

  /** The checks of the first n types that pass. */
  function Passing(s: State, n: nat, stale: nat): nat
    requires Shape(s) && PointersOk(s) && n <= MAX_NTS
  {
    if n == 0 then 0
    else Passing(s, n - 1, stale) + if s.num[n - 1] > 0 && s.avail[n - 1] > 0 && Spare(s, n - 1, stale) then 1 else 0
  }

  /** The counter counts the passing checks of all types modulo 5, and exactly those that make it a
      multiple of 5 lead to a search. */
  lemma {:induction false} EveryFifth(s: State, n: nat, cnter: nat, stale: nat)
    requires Shape(s) && PointersOk(s) && n <= MAX_NTS && cnter < 5
    ensures CounterAt(s, n, cnter, stale) == (cnter + Passing(s, n, stale)) % 5
    ensures n > 0 ==>
              (Searches(s, n - 1, CounterAt(s, n - 1, cnter, stale), stale) <==>
               Passing(s, n, stale) > Passing(s, n - 1, stale) && (cnter + Passing(s, n, stale)) % 5 == 0)
  {
    hide Spare, CounterAt, Passing;
    if n == 0 {
      assert CounterAt(s, 0, cnter, stale) == cnter && Passing(s, 0, stale) == 0 by { NoChecks(s, cnter, stale); }
    } else {
      EveryFifth(s, n - 1, cnter, stale);
      OneCheck(s, n - 1, cnter, stale);
      NextRest(cnter + Passing(s, n - 1, stale));
    }
  }

  lemma NoChecks(s: State, cnter: nat, stale: nat)
    requires Shape(s) && PointersOk(s)
    ensures CounterAt(s, 0, cnter, stale) == cnter && Passing(s, 0, stale) == 0
  {
  }

  lemma OneCheck(s: State, n: nat, cnter: nat, stale: nat)
    requires Shape(s) && PointersOk(s) && n < MAX_NTS
    ensures CounterAt(s, n + 1, cnter, stale) == CounterAfter(s, n, CounterAt(s, n, cnter, stale), stale)
    ensures Passing(s, n + 1, stale) ==
            Passing(s, n, stale) + if s.num[n] > 0 && s.avail[n] > 0 && Spare(s, n, stale) then 1 else 0
  {
    hide Spare, CounterAfter;
  }

  lemma NextRest(a: nat)
    ensures (a + 1) % 5 == if a % 5 == 4 then 0 else a % 5 + 1
  {
  }
}

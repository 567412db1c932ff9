/**
 One pass of the scale thread as a function of the state, from any state of a run: what it
 needs, what it leaves, and which steps of the system it consists of.
 */
module ScaleSteps {
  import opened Registry
  import opened Lifecycle
  import opened Scale
  import opened ScaleThread
  import Runs

  /** The rows of the type map list occupied slots. */
  ghost predicate Rowed(s: State) {
    Typed(s) && forall y: nat :: y < MAX_NTS ==> RowOk(s, y)
  }

  ghost predicate RowOk(s: State, y: nat)
    requires Shape(s) && y < MAX_NTS
  {
    s.num[y] <= MAX_NFS_PER_NT &&
    forall k :: 0 <= k < s.num[y] ==> s.nts[y][k] < MAX_NFS && s.nfs[s.nts[y][k]].info.Some?
  }

  lemma InvRowed(s: State)
    requires Inv(s)
    ensures Rowed(s)
  {
    hide Local, Counters, Registered, Typed;
    InvTyped(s);
    forall y: nat | y < MAX_NTS
      ensures RowOk(s, y)
    {
      Runs.CountersAgree(s, y);
      var ids := Ids(s, y);
      forall k | 0 <= k < s.num[y]
        ensures s.nts[y][k] < MAX_NFS && s.nfs[s.nts[y][k]].info.Some?
      {
        assert ids[k] == s.nts[y][k] && ids[k] in ids;
        MemberOccupied(s, y, ids[k]);
      }
    }
  }

  lemma MemberOccupied(s: State, y: nat, i: nat)
    requires Shape(s) && i in Members(s, y)
    ensures i < MAX_NFS && s.nfs[i].info.Some?
  {
  }

  /** Every running instance about to block has a block message waiting. */
  ghost predicate AllTold(s: State) {
    Shape(s) && PointersOk(s) && forall i: nat :: i < MAX_NFS && Valid(s, i) && s.nfs[i].bkFlag == 1 ==>
      ScaleMsg(ScaleBlock, i, 0) in s.nfs[i].scaleQ
  }

  /** 32-bit increment */
  function Next(cnter: nat): nat {
    (cnter + 1) % 0x1_0000_0000
  }

  // ---------- One type ----------

  /** The load check of the type comes to the search for an instance to block. */
  predicate Searches(s: State, y: nat, cnter: nat, stale: nat)
    requires Shape(s) && PointersOk(s) && y < MAX_NTS
  {
    s.num[y] > 0 && s.avail[y] > 0 && Spare(s, y, stale) && Next(cnter) == CHECK_INTERVAL
  }

  /** The counter after the type: it counts the checks that passed, of whatever type, since the
      last search; a check that fails leaves it. */
  function CounterAfter(s: State, y: nat, cnter: nat, stale: nat): nat
    requires Shape(s) && PointersOk(s) && y < MAX_NTS
  {
    if s.num[y] == 0 || s.avail[y] == 0 || !Spare(s, y, stale) then cnter
    else if Next(cnter) == CHECK_INTERVAL then 0 else Next(cnter)
  }

  function Choice(s: State, y: nat): Option<nat>
    requires Rowed(s) && y < MAX_NTS
  {
    assert RowOk(s, y);
    LastRunning(s, y, s.num[y])
  }

  /** What the pass does for one type. */
  function TypeStep(s: State, y: nat, cnter: nat, stale: nat): State
    requires Rowed(s) && y < MAX_NTS && (Searches(s, y, cnter, stale) ==> Choice(s, y).Some?)
  {
    if s.num[y] == 0 then s
    else if s.avail[y] == 0 then SendAll(s, Woken(s, y, 1))
    else if Searches(s, y, cnter, stale) then BlockNow(s, Choice(s, y).value)
    else s
  }

  /** Only block flags, overload marks and scale messages differ. */
  ghost predicate OnlyFlags(s: State, t: State)
    requires Shape(s)
  {
    Shape(t) && t == s.(nfs := t.nfs) &&
    forall i :: 0 <= i < MAX_NFS ==>
      t.nfs[i].info == s.nfs[i].info && t.nfs[i].instId == s.nfs[i].instId && t.nfs[i].pktRate == s.nfs[i].pktRate
  }

  lemma {:induction false} SameLoad(s: State, t: State, y: nat, n: nat, stale: nat)
    requires Shape(s) && PointersOk(s) && OnlyFlags(s, t) && n <= MAX_NFS
    ensures PointersOk(t) && LoadOf(t, y, n, stale) == LoadOf(s, y, n, stale)
  {
    if n > 0 {
      SameLoad(s, t, y, n - 1, stale);
    }
  }

  lemma {:induction false} SameRunning(s: State, t: State, y: nat, n: nat)
    requires Shape(s) && PointersOk(s) && OnlyFlags(s, t) && PointersOk(t) && y < MAX_NTS && n <= MAX_NFS_PER_NT
    requires forall k :: 0 <= k < n ==> s.nts[y][k] < MAX_NFS
    ensures LastRunning(t, y, n) == LastRunning(s, y, n)
  {
    if n > 0 {
      SameRunning(s, t, y, n - 1);
    }
  }

  /** What the pass looks at for a type is not changed by what it does for others. */
  lemma SameSearch(s: State, t: State, y: nat, cnter: nat, stale: nat)
    requires Rowed(s) && OnlyFlags(s, t) && y < MAX_NTS
    ensures Rowed(t) && Searches(t, y, cnter, stale) == Searches(s, y, cnter, stale)
    ensures CounterAfter(t, y, cnter, stale) == CounterAfter(s, y, cnter, stale) && Choice(t, y) == Choice(s, y)
  {
    hide LoadOf, LastRunning;
    SameLoad(s, t, y, MAX_NFS, stale);
    SameRows(s, t);
    assert RowOk(s, y) && RowOk(t, y);
    SameRunning(s, t, y, s.num[y]);
  }

  lemma SameRows(s: State, t: State)
    requires Rowed(s) && OnlyFlags(s, t)
    ensures Rowed(t)
  {
    forall y: nat | y < MAX_NTS
      ensures RowOk(t, y)
    {
      assert RowOk(s, y);
    }
  }

  lemma TypeStepFlags(s: State, y: nat, cnter: nat, stale: nat)
    requires Rowed(s) && y < MAX_NTS && (Searches(s, y, cnter, stale) ==> Choice(s, y).Some?)
    ensures var t := TypeStep(s, y, cnter, stale);
            OnlyFlags(s, t) && (AllTold(s) ==> AllTold(t)) &&
            forall i :: 0 <= i < MAX_NFS ==>
              t.nfs[i].bkFlag == if Searches(s, y, cnter, stale) && Choice(s, y) == Some(i) then 1 else s.nfs[i].bkFlag
  {
    hide Spare, Woken, LastRunning, RowOk;
    if Searches(s, y, cnter, stale) {
      ChoiceRuns(s, y);
      var i := Choice(s, y).value;
      assert BlockNow(s, i).nfs[i].scaleQ[|s.nfs[i].scaleQ|] == ScaleMsg(ScaleBlock, i, 0);
    }
  }

  lemma ChoiceRuns(s: State, y: nat)
    requires Rowed(s) && y < MAX_NTS && Choice(s, y).Some?
    ensures Choice(s, y).value < MAX_NFS && Valid(s, Choice(s, y).value)
  {
    hide LastRunning;
    assert RowOk(s, y);
  }

  // ---------- All types ----------

  /** The counter when the pass comes to type n. */
  function CounterAt(s: State, n: nat, cnter: nat, stale: nat): nat
    requires Shape(s) && PointersOk(s) && n <= MAX_NTS
  {
    if n == 0 then cnter else CounterAfter(s, n - 1, CounterAt(s, n - 1, cnter, stale), stale)
  }

  /** The pass picks instance i to block for type y. */
  predicate Picks(s: State, y: nat, cnter: nat, stale: nat, i: nat)
    requires Rowed(s) && y < MAX_NTS
  {
    Searches(s, y, CounterAt(s, y, cnter, stale), stale) && Choice(s, y) == Some(i)
  }

  /** Every search for an instance to block stays inside its row. */
  ghost predicate SearchesEnd(s: State, n: nat, cnter: nat, stale: nat)
    requires Rowed(s) && n <= MAX_NTS
  {
    forall y: nat :: y < n && Searches(s, y, CounterAt(s, y, cnter, stale), stale) ==> Choice(s, y).Some?
  }

  function TypeSteps(s: State, n: nat, cnter: nat, stale: nat): (r: State)
    requires Rowed(s) && n <= MAX_NTS && SearchesEnd(s, n, cnter, stale)
    ensures OnlyFlags(s, r) && (AllTold(s) ==> AllTold(r))
  {
    hide Typed, AllTold, RowOk, TypeStep, Searches, Choice, Rowed;
    if n == 0 then s
    else
      FewerSearches(s, n - 1, cnter, stale);
      var t := TypeSteps(s, n - 1, cnter, stale);
      SameSearch(s, t, n - 1, CounterAt(s, n - 1, cnter, stale), stale);
      TypeStepFlags(t, n - 1, CounterAt(s, n - 1, cnter, stale), stale);
      TypeStep(t, n - 1, CounterAt(s, n - 1, cnter, stale), stale)
  }

  lemma FewerSearches(s: State, n: nat, cnter: nat, stale: nat)
    requires Rowed(s) && n < MAX_NTS && SearchesEnd(s, n + 1, cnter, stale)
    ensures SearchesEnd(s, n, cnter, stale)
    ensures Searches(s, n, CounterAt(s, n, cnter, stale), stale) ==> Choice(s, n).Some?
  {
    hide Rowed, Searches, Choice, CounterAt;
  }

  /** The pass raises the block flag of exactly the instances it picks. */
  lemma {:induction false} FlagsAfter(s: State, n: nat, cnter: nat, stale: nat, i: nat)
    requires Rowed(s) && n <= MAX_NTS && SearchesEnd(s, n, cnter, stale) && i < MAX_NFS
    ensures TypeSteps(s, n, cnter, stale).nfs[i].bkFlag ==
            if exists y: nat :: y < n && Picks(s, y, cnter, stale, i) then 1 else s.nfs[i].bkFlag
  {
    hide AllTold, RowOk, TypeStep, Searches, Choice, OnlyScaling;
    if n > 0 {
      FewerSearches(s, n - 1, cnter, stale);
      FlagsAfter(s, n - 1, cnter, stale, i);
      var t, c := TypeSteps(s, n - 1, cnter, stale), CounterAt(s, n - 1, cnter, stale);
      SameSearch(s, t, n - 1, c, stale);
      TypeStepFlags(t, n - 1, c, stale);
      assert Picks(s, n - 1, cnter, stale, i) <==> Searches(s, n - 1, c, stale) && Choice(s, n - 1) == Some(i);
    }
  }
}

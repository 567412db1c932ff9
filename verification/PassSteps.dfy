/**
 A pass of the scale thread is a series of steps of the system, as long as the instances it picks
 to block are not blocked already; and exactly then it keeps the invariant.
 */
module PassSteps {
  import opened Registry
  import opened TypeMap
  import opened Lifecycle
  import opened Scale
  import opened ScaleThread
  import opened ScaleSteps
  import opened Paths
  import Runs

  /** The state after the overload check and the messages that follow it. */
  ghost function Announced(s: State, used: seq<nat>): (r: State)
    requires Rated(s) && |used| == MAX_NFS
    ensures OnlyScaling(s, r) && AllTold(r)
  {
    hide AllTold, UpSignal, UpMessages, BlockMessages;
    var t := FullRings(Overloads(s, MAX_NFS), used, MAX_NFS);
    var u := if UpSignal(t) then UpMessages(t) else t;
    BlockMessagesTell(u);
    BlockMessages(u)
  }

  lemma BlockMessagesTell(s: State)
    requires Shape(s) && PointersOk(s)
    ensures AllTold(BlockMessages(s))
  {
    var t := BlockMessages(s);
    forall i: nat | i < MAX_NFS && Valid(t, i) && t.nfs[i].bkFlag == 1
      ensures ScaleMsg(ScaleBlock, i, 0) in t.nfs[i].scaleQ
    {
      assert t.nfs[i].scaleQ[|s.nfs[i].scaleQ|] == ScaleMsg(ScaleBlock, i, 0);
    }
  }

  lemma {:induction false} SameCounter(s: State, t: State, n: nat, cnter: nat, stale: nat)
    requires Rowed(s) && OnlyFlags(s, t) && n <= MAX_NTS
    ensures Rowed(t) && CounterAt(t, n, cnter, stale) == CounterAt(s, n, cnter, stale)
  {
    hide CounterAfter, RowOk;
    SameRows(s, t);
    if n > 0 {
      SameCounter(s, t, n - 1, cnter, stale);
      SameSearch(s, t, n - 1, CounterAt(s, n - 1, cnter, stale), stale);
    }
  }

  /** The types are searched, and instances picked, as they would be before the announcements. */
  lemma SamePicks(s: State, t: State, n: nat, cnter: nat, stale: nat)
    requires Rowed(s) && OnlyFlags(s, t) && n <= MAX_NTS
    ensures Rowed(t) && (SearchesEnd(t, n, cnter, stale) <==> SearchesEnd(s, n, cnter, stale))
    ensures forall y: nat, i: nat :: y < n ==> (Picks(t, y, cnter, stale, i) <==> Picks(s, y, cnter, stale, i))
  {
    hide CounterAt, Searches, Choice, RowOk;
    SameRows(s, t);
    forall y: nat | y < n
      ensures CounterAt(t, y, cnter, stale) == CounterAt(s, y, cnter, stale)
      ensures Searches(t, y, CounterAt(t, y, cnter, stale), stale) == Searches(s, y, CounterAt(s, y, cnter, stale), stale)
      ensures Choice(t, y) == Choice(s, y)
    {
      SameCounter(s, t, y, cnter, stale);
      SameSearch(s, t, y, CounterAt(s, y, cnter, stale), stale);
    }
  }

  /** The state after the pass over the first n types. */
  ghost function AfterPass(s: State, used: seq<nat>, n: nat, cnter: nat, stale: nat): (r: State)
    requires Rowed(s) && Rated(s) && |used| == MAX_NFS && n <= MAX_NTS && SearchesEnd(s, n, cnter, stale)
    ensures OnlyFlags(s, r) && AllTold(r)
  {
    hide Rowed, SearchesEnd, AllTold;
    var t := Announced(s, used);
    SamePicks(s, t, n, cnter, stale);
    TypeSteps(t, n, cnter, stale)
  }

  // ---------- The pass as steps of the system ----------

  lemma {:induction false} SendPath(s: State, ids: seq<nat>) returns (es: seq<Event>)
    requires Shape(s) && PointersOk(s) && Distinct(ids)
    requires forall i :: i in ids ==> i < MAX_NFS && s.nfs[i].info.Some? && s.infos[s.nfs[i].info.value].status == Blocked
    ensures Path(s, es, SendAll(s, ids))
    decreases |ids|
  {
    hide Told, Path;
    if ids == [] {
      SentMore(s.nfs, [], 0);
      assert SendAll(s, []) == s;
      es := [];
      assert Path(s, [], s) by { NoSteps(s); }
    } else {
      var front, i := ids[..|ids| - 1], ids[|ids| - 1];
      assert ids == front + [i] && i !in front && i in ids;
      assert forall j :: j in front ==> j in ids;
      es := SendPath(s, front);
      SentMore(s.nfs, front, i);
      SentKeepsPointers(s, front);
      var t := SendAll(s, front);
      assert Apply(t, Notify(i, ScaleRun, 0)) == SendAll(s, ids) by { ToldIsNotified(t, i); }
      es := Further(s, es, t, Notify(i, ScaleRun, 0));
    }
  }

  lemma NoSteps(s: State)
    ensures Path(s, [], s)
  {
  }

  lemma ToldIsNotified(s: State, i: nat)
    requires Shape(s) && PointersOk(s) && Enabled(s, Notify(i, ScaleRun, 0))
    ensures Apply(s, Notify(i, ScaleRun, 0)) == s.(nfs := s.nfs[i := Told(s.nfs[i], i)])
  {
  }

  lemma Further(s: State, es: seq<Event>, t: State, e: Event) returns (fs: seq<Event>)
    requires Path(s, es, t) && Shape(t) && PointersOk(t) && Enabled(t, e)
    ensures Path(s, fs, Apply(t, e))
  {
    hide Path, Enabled, Apply;
    OneStep(t, e);
    Joined(s, es, t, [e], Apply(t, e));
    fs := es + [e];
  }

  lemma {:induction false} OverloadsPath(s: State, n: nat) returns (es: seq<Event>)
    requires Rated(s) && n <= MAX_NFS
    ensures Path(s, es, Overloads(s, n))
  {
    hide Path, AnswerOverload, OnlyScaling, Load;
    if n == 0 {
      NoSteps(s);
      es := [];
    } else {
      es := OverloadsPath(s, n - 1);
      var t := Overloads(s, n - 1);
      if Overloaded(t, n - 1) {
        var fs := AnswerPath(t, n - 1);
        Joined(s, es, t, fs, AnswerOverload(t, n - 1));
        es := es + fs;
      }
    }
  }

  lemma AnswerPath(s: State, i: nat) returns (es: seq<Event>)
    requires Rated(s) && i < MAX_NFS && Overloaded(s, i)
    ensures Path(s, es, AnswerOverload(s, i))
  {
    hide Path, NewInstances, WakeList, Sent;
    WakeListBlocked(s, i);
    es := SendPath(s, WakeList(s, i));
    var t, e := SendAll(s, WakeList(s, i)), Mark(i, 1, NewInstances(s, i));
    SentKeepsPointers(s, WakeList(s, i));
    assert Apply(t, e) == AnswerOverload(s, i) by { MarkIsSet(t, i, NewInstances(s, i)); }
    es := Further(s, es, t, e);
  }

  lemma MarkIsSet(s: State, i: nat, scaleNum: nat)
    requires Shape(s) && PointersOk(s) && i < MAX_NFS
    ensures Apply(s, Mark(i, 1, scaleNum)) == SetOverload(s, i, scaleNum)
  {
  }

  lemma WakeListBlocked(s: State, i: nat)
    requires Rated(s) && i < MAX_NFS && Overloaded(s, i)
    ensures Distinct(WakeList(s, i))
    ensures forall j :: j in WakeList(s, i) ==>
              j < MAX_NFS && s.nfs[j].info.Some? && s.infos[s.nfs[j].info.value].status == Blocked
  {
    hide Woken, Needed, BlockedCount;
    var y := s.infos[s.nfs[i].info.value].typeId;
    WokenBlocked(s, y, Needed(s, i));
    WokenBlocked(s, y, BlockedCount(s, y));
  }

  lemma WokenBlocked(s: State, y: nat, nfNum: nat)
    requires Shape(s) && PointersOk(s)
    ensures Distinct(Woken(s, y, nfNum))
    ensures forall i :: i in Woken(s, y, nfNum) ==>
              i < MAX_NFS && s.nfs[i].info.Some? && s.infos[s.nfs[i].info.value].status == Blocked
  {
    hide Woken, BlockedIds, FirstOccupied;
    WokenCount(s, y, nfNum);
    assert forall i :: i in Woken(s, y, nfNum) ==> IsBlocked(s, y, i);
  }

  lemma {:induction false} FullRingsPath(s: State, used: seq<nat>, n: nat) returns (es: seq<Event>)
    requires Typed(s) && |used| == MAX_NFS && n <= MAX_NFS
    ensures Path(s, es, FullRings(s, used, n))
  {
    hide Path;
    if n == 0 {
      NoSteps(s);
      es := [];
    } else {
      es := FullRingsPath(s, used, n - 1);
      var t := FullRings(s, used, n - 1);
      var e := FullRingStep(t, n - 1, used[n - 1]);
      es := Further(s, es, t, e);
    }
  }

  lemma FullRingStep(s: State, i: nat, used: nat) returns (e: Event)
    requires Typed(s) && i < MAX_NFS
    ensures Enabled(s, e) && Apply(s, e) == FullRing(s, i, used)
  {
    var slot := FullRing(s, i, used).nfs[i];
    e := Mark(i, slot.olFlag, slot.scaleNum);
  }

  /** The slot is as it was, or one message was sent to it that may be sent. */
  ghost predicate OneMessage(s: State, i: nat, slot: Slot)
    requires Shape(s) && PointersOk(s) && i < MAX_NFS
  {
    slot == s.nfs[i] ||
    exists sig, k :: Enabled(s, Notify(i, sig, k)) && slot == Post(s.nfs[i], sig, i, k)
  }

  /** The state with the messages to the first n slots. */
  ghost function Upto(s: State, slots: seq<Slot>, n: nat): State
    requires Shape(s) && |slots| == MAX_NFS && n <= MAX_NFS
  {
    s.(nfs := slots[..n] + s.nfs[n..])
  }

  lemma {:induction false} MessagesPath(s: State, slots: seq<Slot>, n: nat) returns (es: seq<Event>)
    requires Shape(s) && PointersOk(s) && |slots| == MAX_NFS && n <= MAX_NFS
    requires forall i: nat :: i < MAX_NFS ==> OneMessage(s, i, slots[i])
    ensures Path(s, es, Upto(s, slots, n))
  {
    hide Path, OneMessage, PointersOk;
    if n == 0 {
      assert Upto(s, slots, 0) == s;
      NoSteps(s);
      es := [];
    } else {
      es := MessagesPath(s, slots, n - 1);
      assert OneMessage(s, n - 1, slots[n - 1]);
      es := MessageStep(s, slots, n - 1, es);
    }
  }

  lemma MessageStep(s: State, slots: seq<Slot>, i: nat, es: seq<Event>) returns (fs: seq<Event>)
    requires Shape(s) && PointersOk(s) && |slots| == MAX_NFS && i < MAX_NFS && OneMessage(s, i, slots[i])
    requires forall j: nat :: j < MAX_NFS ==> OneMessage(s, j, slots[j])
    requires Path(s, es, Upto(s, slots, i))
    ensures Path(s, fs, Upto(s, slots, i + 1))
  {
    hide Path, OneMessage;
    var t := Upto(s, slots, i);
    if slots[i] == s.nfs[i] {
      assert Upto(s, slots, i + 1) == t;
      fs := es;
    } else {
      var e := MessageEvent(s, i, slots[i]);
      UptoPointers(s, slots, i);
      assert Apply(t, e) == Upto(s, slots, i + 1);
      fs := Further(s, es, t, e);
    }
  }

  lemma MessageEvent(s: State, i: nat, slot: Slot) returns (e: Event)
    requires Shape(s) && PointersOk(s) && i < MAX_NFS && OneMessage(s, i, slot) && slot != s.nfs[i]
    ensures e.Notify? && e.i == i && Enabled(s, e) && slot == Post(s.nfs[i], e.sig, i, e.scaleNum)
  {
    var sig, k :| Enabled(s, Notify(i, sig, k)) && slot == Post(s.nfs[i], sig, i, k);
    e := Notify(i, sig, k);
  }

  lemma UptoPointers(s: State, slots: seq<Slot>, n: nat)
    requires Shape(s) && PointersOk(s) && |slots| == MAX_NFS && n <= MAX_NFS
    requires forall j: nat :: j < MAX_NFS ==> OneMessage(s, j, slots[j])
    ensures Shape(Upto(s, slots, n)) && PointersOk(Upto(s, slots, n))
  {
    forall j: nat | j < n
      ensures slots[j].info == s.nfs[j].info
    {
      assert OneMessage(s, j, slots[j]);
    }
  }

  lemma UpMessagesPath(s: State) returns (es: seq<Event>)
    requires Shape(s) && PointersOk(s)
    ensures Path(s, es, UpMessages(s))
  {
    hide Path;
    var t := UpMessages(s);
    forall i: nat | i < MAX_NFS
      ensures OneMessage(s, i, t.nfs[i])
    {
      if Valid(s, i) && s.nfs[i].scaleNum != 0 {
        assert Enabled(s, Notify(i, ScaleUp, s.nfs[i].scaleNum));
      }
    }
    es := MessagesPath(s, t.nfs, MAX_NFS);
    assert Upto(s, t.nfs, MAX_NFS) == t;
  }

  lemma BlockMessagesPath(s: State) returns (es: seq<Event>)
    requires Shape(s) && PointersOk(s)
    ensures Path(s, es, BlockMessages(s))
  {
    hide Path;
    var t := BlockMessages(s);
    forall i: nat | i < MAX_NFS
      ensures OneMessage(s, i, t.nfs[i])
    {
      if Valid(s, i) && s.nfs[i].bkFlag == 1 {
        assert Enabled(s, Notify(i, ScaleBlock, 0));
      }
    }
    es := MessagesPath(s, t.nfs, MAX_NFS);
    assert Upto(s, t.nfs, MAX_NFS) == t;
  }

  lemma AnnouncedPath(s: State, used: seq<nat>) returns (es: seq<Event>)
    requires Rated(s) && |used| == MAX_NFS
    ensures Path(s, es, Announced(s, used))
  {
    hide Path, Overloads, FullRings, UpMessages, BlockMessages, UpSignal, OnlyScaling;
    es := OverloadsPath(s, MAX_NFS);
    var t := Overloads(s, MAX_NFS);
    var fs := FullRingsPath(t, used, MAX_NFS);
    var u := FullRings(t, used, MAX_NFS);
    Joined(s, es, t, fs, u);
    es := es + fs;
    if UpSignal(u) {
      fs := UpMessagesPath(u);
      Joined(s, es, u, fs, UpMessages(u));
      es := es + fs;
      u := UpMessages(u);
      StillPointers(FullRings(t, used, MAX_NFS), u);
    }
    fs := BlockMessagesPath(u);
    Joined(s, es, u, fs, BlockMessages(u));
    es := es + fs;
  }

  lemma StillPointers(s: State, t: State)
    requires Shape(s) && PointersOk(s) && OnlyScaling(s, t)
    ensures Shape(t) && PointersOk(t)
  {
  }

  lemma TypeStepPath(s: State, y: nat, cnter: nat, stale: nat) returns (es: seq<Event>)
    requires Rowed(s) && y < MAX_NTS && (Searches(s, y, cnter, stale) ==> Choice(s, y).Some?)
    requires Searches(s, y, cnter, stale) ==> s.nfs[Choice(s, y).value % MAX_NFS].bkFlag != 2
    ensures Path(s, es, TypeStep(s, y, cnter, stale))
  {
    hide Path, Spare, Woken, Choice, RowOk;
    if s.num[y] > 0 && s.avail[y] == 0 {
      WokenBlocked(s, y, 1);
      es := SendPath(s, Woken(s, y, 1));
    } else if Searches(s, y, cnter, stale) {
      ChoiceRuns(s, y);
      es := BlockPath(s, Choice(s, y).value);
    } else {
      NoSteps(s);
      es := [];
    }
  }

  lemma BlockPath(s: State, i: nat) returns (es: seq<Event>)
    requires Shape(s) && PointersOk(s) && i < MAX_NFS && Valid(s, i) && s.nfs[i].bkFlag != 2
    ensures Path(s, es, BlockNow(s, i))
  {
    hide Path;
    OneStep(s, RaiseBlock(i));
    var t := Apply(s, RaiseBlock(i));
    es := Further(s, [RaiseBlock(i)], t, Notify(i, ScaleBlock, 0));
    assert Apply(t, Notify(i, ScaleBlock, 0)) == BlockNow(s, i);
  }

  /** No instance the pass picks is blocked already. */
  ghost predicate PicksOpen(s: State, n: nat, cnter: nat, stale: nat)
    requires Rowed(s) && n <= MAX_NTS
  {
    forall y: nat, i: nat :: y < n && i < MAX_NFS && Picks(s, y, cnter, stale, i) ==> s.nfs[i].bkFlag != 2
  }

  lemma {:induction false} TypesPath(s: State, n: nat, cnter: nat, stale: nat) returns (es: seq<Event>)
    requires Rowed(s) && n <= MAX_NTS && SearchesEnd(s, n, cnter, stale) && PicksOpen(s, n, cnter, stale)
    ensures Path(s, es, TypeSteps(s, n, cnter, stale))
  {
    hide Path, TypeStep, Searches, Choice, RowOk, OnlyScaling, AllTold, CounterAt, Typed;
    if n == 0 {
      NoSteps(s);
      es := [];
    } else {
      NextOpen(s, n - 1, cnter, stale);
      es := TypesPath(s, n - 1, cnter, stale);
      var t, c := TypeSteps(s, n - 1, cnter, stale), CounterOf(s, n - 1, cnter, stale);
      var fs := TypeStepPath(t, n - 1, c, stale);
      Joined(s, es, t, fs, TypeSteps(s, n, cnter, stale));
      es := es + fs;
    }
  }

  function CounterOf(s: State, n: nat, cnter: nat, stale: nat): nat
    requires Rowed(s) && n <= MAX_NTS
  {
    CounterAt(s, n, cnter, stale)
  }

  /** What the pass does for the next type starts from a state in which the pick is not blocked. */
  lemma NextOpen(s: State, n: nat, cnter: nat, stale: nat)
    requires Rowed(s) && n < MAX_NTS && SearchesEnd(s, n + 1, cnter, stale) && PicksOpen(s, n + 1, cnter, stale)
    ensures SearchesEnd(s, n, cnter, stale) && PicksOpen(s, n, cnter, stale)
    ensures var t, c := TypeSteps(s, n, cnter, stale), CounterOf(s, n, cnter, stale);
            Rowed(t) && (Searches(t, n, c, stale) ==> Choice(t, n).Some?) &&
            (Searches(t, n, c, stale) ==> t.nfs[Choice(t, n).value % MAX_NFS].bkFlag != 2) &&
            TypeSteps(s, n + 1, cnter, stale) == TypeStep(t, n, c, stale)
  {
    hide TypeStep, Searches, Choice, RowOk, OnlyScaling, AllTold;
    FewerSearches(s, n, cnter, stale);
    var t, c := TypeSteps(s, n, cnter, stale), CounterAt(s, n, cnter, stale);
    SameSearch(s, t, n, c, stale);
    if Searches(s, n, c, stale) {
      ChoiceRuns(s, n);
      var i := Choice(s, n).value;
      assert Picks(s, n, cnter, stale, i);
      FlagsAfter(s, n, cnter, stale, i);
    }
  }

  /** A pass that picks no blocked instance is a series of enabled steps. */
  lemma PassIsSteps(s: State, used: seq<nat>, n: nat, cnter: nat, stale: nat) returns (es: seq<Event>)
    requires Rowed(s) && Rated(s) && |used| == MAX_NFS && n <= MAX_NTS && SearchesEnd(s, n, cnter, stale)
    requires PicksOpen(s, n, cnter, stale)
    ensures Path(s, es, AfterPass(s, used, n, cnter, stale))
  {
    hide Path, Picks, SearchesEnd, AllTold, RowOk;
    var t := Announced(s, used);
    es := AnnouncedPath(s, used);
    SamePicks(s, t, n, cnter, stale);
    var fs := TypesPath(t, n, cnter, stale);
    Joined(s, es, t, fs, TypeSteps(t, n, cnter, stale));
    es := es + fs;
  }

  // ---------- The invariant ----------

  /** From any state of a run in which it divides by no zero and its searches end, the pass keeps
      the invariant just when no instance it picks to block is blocked already. */
  lemma PassKeepsIff(s: State, used: seq<nat>, n: nat, cnter: nat, stale: nat)
    requires Inv(s) && Rowed(s) && Rated(s) && |used| == MAX_NFS && n <= MAX_NTS && SearchesEnd(s, n, cnter, stale)
    ensures Inv(AfterPass(s, used, n, cnter, stale)) <==> PicksOpen(s, n, cnter, stale)
  {
    hide Inv, Path, Picks, SearchesEnd, AllTold, RowOk;
    if PicksOpen(s, n, cnter, stale) {
      var es := PassIsSteps(s, used, n, cnter, stale);
      PathKeeps(s, es, AfterPass(s, used, n, cnter, stale));
    } else {
      var y: nat, i: nat :| y < n && i < MAX_NFS && Picks(s, y, cnter, stale, i) && s.nfs[i].bkFlag == 2;
      var t := AfterPass(s, used, n, cnter, stale);
      PickedFlag(s, used, n, cnter, stale, y, i);
      if Inv(t) {
        PickedMiscounts(s, t, y, i);
      }
    }
  }

  /** The flags after the pass: those of the instances picked are raised. */
  lemma PickedFlag(s: State, used: seq<nat>, n: nat, cnter: nat, stale: nat, y: nat, i: nat)
    requires Inv(s) && Rowed(s) && Rated(s) && |used| == MAX_NFS && n <= MAX_NTS && SearchesEnd(s, n, cnter, stale)
    requires y < n && i < MAX_NFS && Picks(s, y, cnter, stale, i)
    ensures var t := AfterPass(s, used, n, cnter, stale);
            i in Members(s, y) && t.nfs[i].bkFlag == 1 &&
            forall j :: 0 <= j < MAX_NFS ==> t.nfs[j].bkFlag == 1 || t.nfs[j].bkFlag == s.nfs[j].bkFlag
  {
    hide Inv, SearchesEnd, AllTold, Members;
    var t := Announced(s, used);
    SamePicks(s, t, n, cnter, stale);
    ChoiceExists(s, y);
    assert Picks(t, y, cnter, stale, i);
    forall j: nat | j < MAX_NFS
      ensures TypeSteps(t, n, cnter, stale).nfs[j].bkFlag ==
              if exists x: nat :: x < n && Picks(t, x, cnter, stale, j) then 1 else s.nfs[j].bkFlag
    {
      FlagsAfter(t, n, cnter, stale, j);
    }
  }

  lemma PickedMiscounts(s: State, t: State, y: nat, i: nat)
    requires Inv(s) && OnlyFlags(s, t) && y < MAX_NTS && i in Members(s, y) && s.nfs[i].bkFlag == 2 && t.nfs[i].bkFlag == 1
    requires forall j :: 0 <= j < MAX_NFS ==> t.nfs[j].bkFlag == 1 || t.nfs[j].bkFlag == s.nfs[j].bkFlag
    ensures !Inv(t)
  {
    hide Linked, Local, Counters;
    if Inv(t) {
      Runs.CountersAgree(s, y);
      Runs.CountersAgree(t, y);
      assert Members(t, y) == Members(s, y);
      assert Open(s, y) + {i} <= Open(t, y);
      Larger(Open(s, y) + {i}, Open(t, y));
    }
  }

  lemma Larger(a: set<nat>, b: set<nat>)
    requires a <= b
    ensures |a| <= |b|
  {
    assert b == a + (b - a);
  }

  /** With no message queued, every search ends and no instance picked is blocked. */
  lemma SettledPass(s: State, n: nat, cnter: nat, stale: nat)
    requires Inv(s) && Rowed(s) && s.ring == [] && n <= MAX_NTS
    ensures SearchesEnd(s, n, cnter, stale) && PicksOpen(s, n, cnter, stale)
  {
    hide Inv, CounterAt, RowOk, Members;
    forall y: nat | y < n && Searches(s, y, CounterAt(s, y, cnter, stale), stale)
      ensures Choice(s, y).Some? && Choice(s, y).value < MAX_NFS && s.nfs[Choice(s, y).value].bkFlag != 2
    {
      SettledRuns(s, y);
      ChoiceExists(s, y);
      ChoiceRuns(s, y);
      SettledFlagOf(s, y, Choice(s, y).value);
    }
  }

  lemma SettledFlagOf(s: State, y: nat, i: nat)
    requires Inv(s) && s.ring == [] && i in Members(s, y) && i < MAX_NFS && Valid(s, i)
    ensures s.nfs[i].bkFlag != 2
  {
    hide Local, Counters;
    Runs.SettledFlag(s, i);
  }
}

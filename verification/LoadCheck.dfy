/**
 What the test of the load check means.  The code computes in 16 bits, so the difference it tests
 is the true one only up to multiples of 65536.
 */
module LoadCheck {
  import opened Registry
  import opened TypeMap
  import opened Lifecycle
  import opened Scale
  import opened ScaleThread
  import Runs

  /** The load of the running instances of a type, without wrap-around. */
  function TrueLoad(s: State, y: nat, n: nat): nat
    requires Shape(s) && PointersOk(s) && n <= MAX_NFS
  {
    if n == 0 then 0 else TrueLoad(s, y, n - 1) + if Counted(s, y, n - 1) then Load(s, n - 1) else 0
  }

  /** What the available instances can carry beyond the load. */
  function Room(s: State, y: nat, stale: nat): int
    requires Shape(s) && PointersOk(s) && y < MAX_NTS
  {
    LoadOf(s, y, MAX_NFS, stale).1 * s.avail[y] - TrueLoad(s, y, MAX_NFS)
  }

  /** The available instances, more than one, can carry one maximal load beyond the load. */
  predicate Capacity(s: State, y: nat, stale: nat)
    requires Shape(s) && PointersOk(s) && y < MAX_NTS
  {
    Room(s, y, stale) >= LoadOf(s, y, MAX_NFS, stale).1 && s.avail[y] > 1
  }

  lemma WrapAdds(a: nat, b: nat)
    ensures (a % 65536 + b) % 65536 == (a + b) % 65536
  {
  }

  lemma WrapSubtracts(a: int, b: nat)
    ensures (a - b % 65536) % 65536 == (a - b) % 65536
  {
  }

  lemma {:induction false} LoadWraps(s: State, y: nat, n: nat, stale: nat)
    requires Shape(s) && PointersOk(s) && n <= MAX_NFS
    ensures LoadOf(s, y, n, stale).0 == TrueLoad(s, y, n) % 65536
  {
    hide Load;
    if n > 0 {
      LoadWraps(s, y, n - 1, stale);
      if Counted(s, y, n - 1) {
        WrapAdds(TrueLoad(s, y, n - 1), Load(s, n - 1));
      }
    }
  }

  /** The test passes just when the room, reduced to 16 bits, reaches one maximal load. */
  lemma SpareIs(s: State, y: nat, stale: nat)
    requires Shape(s) && PointersOk(s) && y < MAX_NTS
    ensures Spare(s, y, stale) <==>
            Room(s, y, stale) % 65536 >= LoadOf(s, y, MAX_NFS, stale).1 && s.avail[y] > 1
  {
    hide LoadOf, TrueLoad;
    LoadWraps(s, y, MAX_NFS, stale);
    WrapSubtracts(LoadOf(s, y, MAX_NFS, stale).1 * s.avail[y], TrueLoad(s, y, MAX_NFS));
  }

  /** A test that passes shows capacity just when the load is not above what the available
      instances can carry: an overload wraps around and looks like room. */
  lemma SpareMeansCapacityIff(s: State, y: nat, stale: nat)
    requires Shape(s) && PointersOk(s) && y < MAX_NTS && Spare(s, y, stale)
    ensures Capacity(s, y, stale) <==> TrueLoad(s, y, MAX_NFS) <= LoadOf(s, y, MAX_NFS, stale).1 * s.avail[y]
  {
    hide LoadOf, TrueLoad, Spare;
    SpareIs(s, y, stale);
    ReducedBound(Room(s, y, stale));
  }

  lemma ReducedBound(d: int)
    ensures d >= 0 ==> d % 65536 <= d
    ensures 0 <= d < 65536 ==> d % 65536 == d
  {
  }

  /** Capacity is found just when the room, reduced to 16 bits, still reaches one maximal load;
      always when the room is below 65536. */
  lemma CapacityFoundIff(s: State, y: nat, stale: nat)
    requires Shape(s) && PointersOk(s) && y < MAX_NTS && Capacity(s, y, stale)
    ensures Spare(s, y, stale) <==> Room(s, y, stale) % 65536 >= LoadOf(s, y, MAX_NFS, stale).1
    ensures Room(s, y, stale) < 65536 ==> Spare(s, y, stale)
  {
    hide LoadOf, TrueLoad, Spare;
    SpareIs(s, y, stale);
    ReducedBound(Room(s, y, stale));
  }

  /** With the room between 0 and 65535 the test is exact. */
  lemma ExactInRange(s: State, y: nat, stale: nat)
    requires Shape(s) && PointersOk(s) && y < MAX_NTS && 0 <= Room(s, y, stale) < 65536
    ensures Spare(s, y, stale) <==> Capacity(s, y, stale)
  {
    hide LoadOf, TrueLoad, Spare;
    SpareIs(s, y, stale);
    ReducedBound(Room(s, y, stale));
  }

  // ---------- Whose load it is ----------

  /** pkt_rate times srv_time of an instance that runs, 0 of any other. */
  function RunningLoad(s: State, i: nat): nat
    requires Shape(s) && PointersOk(s)
  {
    if i < MAX_NFS && s.nfs[i].info.Some? && s.infos[s.nfs[i].info.value].status == Running
    then s.nfs[i].pktRate * s.infos[s.nfs[i].info.value].srvTime else 0
  }

  /** The running loads of the instances in a row. */
  function RowLoad(s: State, ids: seq<nat>): nat
    requires Shape(s) && PointersOk(s)
  {
    if ids == [] then 0 else RunningLoad(s, ids[0]) + RowLoad(s, ids[1..])
  }

  /** The load the check of a type tests is, reduced to 16 bits, the sum of pkt_rate times srv_time over
      the running instances in the row of that type, and of no others. */
  lemma LoadIsOfRow(s: State, y: nat, stale: nat)
    requires Inv(s) && y < MAX_NTS
    ensures PointersOk(s) && s.num[y] <= MAX_NFS_PER_NT
    ensures TrueLoad(s, y, MAX_NFS) == RowLoad(s, Ids(s, y))
    ensures LoadOf(s, y, MAX_NFS, stale).0 == RowLoad(s, Ids(s, y)) % 65536
  {
    hide Linked, Local, Counters, TrueLoad, RowLoad, RunningLoad, LoadOf, Members;
    InvParts(s);
    Runs.CountersAgree(s, y);
    LoadWraps(s, y, MAX_NFS, stale);
    var ids := Ids(s, y);
    forall i: nat | i < MAX_NFS
      ensures (if Counted(s, y, i) then Load(s, i) else 0) == if i in ids then RunningLoad(s, i) else 0
    {
      CountedIsMember(s, y, i);
    }
    forall k | 0 <= k < |ids|
      ensures ids[k] < MAX_NFS
    {
      assert ids[k] in Members(s, y);
      MemberBelow(s, y, ids[k]);
    }
    SumsAgree(s, y, ids, MAX_NFS);
  }

  lemma MemberBelow(s: State, y: nat, i: nat)
    requires Shape(s) && i in Members(s, y)
    ensures i < MAX_NFS
  {
  }

  lemma CountedIsMember(s: State, y: nat, i: nat)
    requires Inv(s) && PointersOk(s) && i < MAX_NFS
    ensures (if Counted(s, y, i) then Load(s, i) else 0) == if i in Members(s, y) then RunningLoad(s, i) else 0
  {
    hide Local, Counters;
  }

  /** The sum over the slots is the sum over a list of distinct slots that holds all that count. */
  lemma {:induction false} SumsAgree(s: State, y: nat, ids: seq<nat>, n: nat)
    requires Shape(s) && PointersOk(s) && n <= MAX_NFS && Distinct(ids)
    requires forall k :: 0 <= k < |ids| ==> ids[k] < n
    requires forall i: nat :: i < n ==>
               (if Counted(s, y, i) then Load(s, i) else 0) == if i in ids then RunningLoad(s, i) else 0
    ensures TrueLoad(s, y, n) == RowLoad(s, ids)
    decreases n
  {
    hide Counted, Load, RunningLoad, Without, Distinct;
    if n == 0 {
      assert |ids| == 0;
    } else if n - 1 in ids {
      var k :| 0 <= k < |ids| && ids[k] == n - 1;
      RowLoadWithout(s, ids, k);
      WithoutMembers(ids, k);
      SmallerIds(ids, k, n);
      SumsAgree(s, y, Without(ids, k), n - 1);
    } else {
      SumsAgree(s, y, ids, n - 1);
    }
  }

  lemma SmallerIds(ids: seq<nat>, k: nat, n: nat)
    requires k < |ids| && Distinct(ids) && ids[k] == n - 1 && forall j :: 0 <= j < |ids| ==> ids[j] < n
    ensures forall j :: 0 <= j < |Without(ids, k)| ==> Without(ids, k)[j] < n - 1
  {
  }

  lemma {:induction false} RowLoadWithout(s: State, ids: seq<nat>, k: nat)
    requires Shape(s) && PointersOk(s) && k < |ids|
    ensures RowLoad(s, ids) == RunningLoad(s, ids[k]) + RowLoad(s, Without(ids, k))
  {
    hide RunningLoad;
    if k == 0 {
      assert Without(ids, 0) == ids[1..];
    } else {
      RowLoadWithout(s, ids[1..], k - 1);
      assert Without(ids, k)[1..] == Without(ids[1..], k - 1);
    }
  }

  /** A running instance of type y with its service time, limit and packet rate, if the slot has one. */
  function Serving(s: State, y: nat, i: nat): Option<(nat, nat, nat)>
    requires Shape(s) && PointersOk(s) && i < MAX_NFS
  {
    if !s.nfs[i].info.Some? then None
    else
      var info := s.infos[s.nfs[i].info.value];
      if info.status == Running && info.typeId == y then Some((info.srvTime, info.maxLoad, s.nfs[i].pktRate)) else None
  }

  /** States that agree on the running instances of a type, and on how many are available, answer the
      test for that type alike, whatever the other types do. */
  lemma SpareIsLocal(s: State, t: State, y: nat, stale: nat)
    requires Shape(s) && PointersOk(s) && Shape(t) && PointersOk(t) && y < MAX_NTS
    requires s.avail[y] == t.avail[y] && forall i: nat :: i < MAX_NFS ==> Serving(s, y, i) == Serving(t, y, i)
    ensures Spare(s, y, stale) == Spare(t, y, stale)
  {
    hide LoadOf, Serving;
    SameLoads(s, t, y, MAX_NFS, stale);
  }

  lemma {:induction false} SameLoads(s: State, t: State, y: nat, n: nat, stale: nat)
    requires Shape(s) && PointersOk(s) && Shape(t) && PointersOk(t) && n <= MAX_NFS
    requires forall i: nat :: i < MAX_NFS ==> Serving(s, y, i) == Serving(t, y, i)
    ensures LoadOf(s, y, n, stale) == LoadOf(t, y, n, stale)
  {
    if n > 0 {
      SameLoads(s, t, y, n - 1, stale);
      assert Serving(s, y, n - 1) == Serving(t, y, n - 1);
    }
  }

  /** The last of the first n slots whose instance runs, is of the type and has a service time. */
  function LastServing(s: State, y: nat, n: nat): (r: Option<nat>)
    requires Shape(s) && PointersOk(s) && n <= MAX_NFS
    ensures r == None ==> forall i: nat :: i < n ==> !Serves(s, y, i)
    ensures r.Some? ==> r.value < n && Serves(s, y, r.value) && forall j: nat :: r.value < j < n ==> !Serves(s, y, j)
  {
    if n == 0 then None else if Serves(s, y, n - 1) then Some(n - 1) else LastServing(s, y, n - 1)
  }

  /** The limit used is that of the last such instance; without one it is what the local variable held
      before. */
  lemma {:induction false} LimitIsOfLast(s: State, y: nat, n: nat, stale: nat)
    requires Shape(s) && PointersOk(s) && n <= MAX_NFS
    ensures LoadOf(s, y, n, stale).1 ==
            match LastServing(s, y, n)
            case None => stale
            case Some(i) => Serving(s, y, i).value.1
  {
    hide Serving, Serves, Counted;
    if n > 0 {
      LimitIsOfLast(s, y, n - 1, stale);
      ServesIsCounted(s, y, n - 1);
    }
  }

  lemma ServesIsCounted(s: State, y: nat, i: nat)
    requires Shape(s) && PointersOk(s) && i < MAX_NFS
    ensures Serves(s, y, i) <==> Counted(s, y, i)
    ensures Serves(s, y, i) ==> s.nfs[i].info.Some? && Serving(s, y, i).value.1 == s.infos[s.nfs[i].info.value].maxLoad
  {
  }

  predicate Serves(s: State, y: nat, i: nat)
    requires Shape(s) && PointersOk(s) && i < MAX_NFS
  {
    Serving(s, y, i).Some? && Serving(s, y, i).value.0 != 0
  }
}

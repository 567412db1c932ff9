/**
 Choosing the instance that gets a packet: d2sc_sc_nt_to_nf_map.
 */
module Router {
  import opened Registry
  import opened Lifecycle
  import opened SharedMemory
  import opened Remainders
  import opened TypeMap
  import Runs

  /** The instance runs, is of the type, and is not blocked: what the search looks for. */
  predicate Usable(s: State, y: nat, i: nat)
    requires Shape(s) && PointersOk(s) && i < MAX_NFS
  {
    Valid(s, i) && s.infos[s.nfs[i].info.value].typeId == y && s.nfs[i].bkFlag != 2
  }

  /** k places after i, round the table. */
  function After(i: nat, k: nat): (r: nat)
    ensures r < MAX_NFS
  {
    (i + k) % MAX_NFS
  }

  /** The instance the packet's hash selects. */
  function Hashed(s: State, y: nat, rss: nat): nat
    requires Shape(s) && y < MAX_NTS && 0 < s.num[y] <= MAX_NFS_PER_NT
  {
    s.nts[y][rss % s.num[y]]
  }

  /** The call returns: no instance, an unblocked hashed instance, or a usable one to find. */
  ghost predicate Terminates(s: State, y: nat, rss: nat)
    requires Shape(s) && PointersOk(s) && y < MAX_NTS && s.num[y] <= MAX_NFS_PER_NT
    requires s.num[y] > 0 ==> Hashed(s, y, rss) < MAX_NFS
  {
    s.num[y] > 0 ==> s.nfs[Hashed(s, y, rss)].bkFlag != 2 || exists i: nat :: i < MAX_NFS && Usable(s, y, i)
  }

  /** The first place from k on at which there is a usable instance; past the whole round
      when there is none. */
  function FirstUsable(s: State, y: nat, i: nat, k: nat): (r: nat)
    requires Shape(s) && PointersOk(s) && k <= MAX_NFS + 1
    ensures k <= r <= MAX_NFS + 1
    ensures r <= MAX_NFS ==> Usable(s, y, After(i, r))
    ensures forall j :: k <= j < r ==> !Usable(s, y, After(i, j))
    decreases MAX_NFS + 1 - k
  {
    if k > MAX_NFS || Usable(s, y, After(i, k)) then k else FirstUsable(s, y, i, k + 1)
  }

  lemma UsableIsReached(s: State, y: nat, i: nat, j: nat)
    requires Shape(s) && PointersOk(s) && i < MAX_NFS && j < MAX_NFS && Usable(s, y, j)
    ensures exists k :: 1 <= k <= MAX_NFS && Usable(s, y, After(i, k))
  {
    var k := if j > i then j - i else j + MAX_NFS - i;
    assert After(i, k) == j;
  }

  /** The instance chosen, when the call returns; 0 when the type has none. */
  function Chosen(s: State, y: nat, rss: nat): (r: nat)
    requires Shape(s) && PointersOk(s) && y < MAX_NTS && s.num[y] <= MAX_NFS_PER_NT
    requires s.num[y] > 0 ==> Hashed(s, y, rss) < MAX_NFS
    ensures r < MAX_NFS
  {
    if s.num[y] == 0 then 0
    else
      var i := Hashed(s, y, rss);
      if s.nfs[i].bkFlag != 2 then i else After(i, FirstUsable(s, y, i, 1))
  }

  /** Where the call stands: it has returned an instance, or its loop has come to a place. */
  datatype Search = Returned(id: nat) | At(id: nat)

  /** The loop after k turns: one place on, and back to the start at the end of the table. */
  function Turns(s: State, y: nat, i: nat, k: nat): Search
    requires Shape(s) && PointersOk(s) && i < MAX_NFS
    ensures Turns(s, y, i, k).id < MAX_NFS
  {
    if k == 0 then At(i)
    else
      match Turns(s, y, i, k - 1)
      case Returned(id) => Returned(id)
      case At(id) =>
        var next := if id + 1 >= MAX_NFS then (id + 1) % MAX_NFS else id + 1;
        if Usable(s, y, next) then Returned(next) else At(next)
  }

  lemma {:induction false} TurnsAre(s: State, y: nat, i: nat, k: nat)
    requires Shape(s) && PointersOk(s) && i < MAX_NFS
    ensures var first := FirstUsable(s, y, i, 1);
            Turns(s, y, i, k) == if first <= MAX_NFS && k >= first then Returned(After(i, first)) else At(After(i, k))
  {
    hide Usable, PointersOk, After, FirstUsable, Shape;
    AfterNext(i, k);
    if k > 0 {
      TurnsAre(s, y, i, k - 1);
      AfterNext(i, k - 1);
      PlaceSearched(s, y, i, k);
    }
  }

  /** The k-th place is usable only if the first usable one is no further. */
  lemma PlaceSearched(s: State, y: nat, i: nat, k: nat)
    requires Shape(s) && PointersOk(s) && i < MAX_NFS && k > 0
    ensures var first := FirstUsable(s, y, i, 1);
            (k < first || first > MAX_NFS ==> !Usable(s, y, After(i, k))) && (k == first <= MAX_NFS ==> Usable(s, y, After(i, k)))
  {
    var first := FirstUsable(s, y, i, 1);
    if first > MAX_NFS && Usable(s, y, After(i, k)) {
      UsableIsReached(s, y, i, After(i, k));
    }
  }

  /** The loop returns after some number of turns just when the type has a usable instance. */
  lemma LoopEndsIff(s: State, y: nat, i: nat)
    requires Shape(s) && PointersOk(s) && i < MAX_NFS
    ensures (exists k :: Turns(s, y, i, k).Returned?) <==> (exists j: nat :: j < MAX_NFS && Usable(s, y, j))
  {
    hide Usable, PointersOk;
    var first := FirstUsable(s, y, i, 1);
    TurnsAre(s, y, i, first);
    if j: nat :| j < MAX_NFS && Usable(s, y, j) {
      UsableIsReached(s, y, i, j);
      assert Turns(s, y, i, first).Returned?;
    } else {
      forall k: nat
        ensures !Turns(s, y, i, k).Returned?
      {
        TurnsAre(s, y, i, k);
      }
    }
  }

  lemma AfterNext(i: nat, k: nat)
    ensures After(i, k + 1) == (After(i, k) + 1) % MAX_NFS
    ensures i < MAX_NFS ==> After(i, 0) == i
  {
  }

  /** The two tests of the search loop. */
  method IsUsable(m: Shared, instId: nat, typeId: nat) returns (usable: bool)
    requires m.WellFormed() && PointersOk(m.Abs()) && instId < MAX_NFS
    ensures usable == Usable(m.Abs(), typeId, instId)
    ensures usable <==> m.nfs[instId].info.Some? && m.nfs[instId].bkFlag != 2 &&
                        var info := m.infos[m.nfs[instId].info.value]; info.status == Running && info.typeId == typeId
  {
    if !(m.nfs[instId].info.Some? && m.infos[m.nfs[instId].info.value].status == Running) {
      return false;
    }
    return m.infos[m.nfs[instId].info.value].typeId == typeId && m.nfs[instId].bkFlag != 2;
  }

  method NtToNfMap(m: Shared, typeId: nat, rss: nat) returns (instId: nat)
    requires m.WellFormed() && PointersOk(m.Abs()) && typeId < MAX_NTS && m.num[typeId] <= MAX_NFS_PER_NT
    requires m.num[typeId] > 0 ==> Hashed(m.Abs(), typeId, rss) < MAX_NFS
    requires Terminates(m.Abs(), typeId, rss)
    ensures instId == Chosen(m.Abs(), typeId, rss)
    ensures m.num[typeId] > 0 && m.nfs[m.nts[typeId, rss % m.num[typeId]]].bkFlag != 2 ==>
              instId == m.nts[typeId, rss % m.num[typeId]]
  {
    hide Usable, After, PointersOk;
    var numNfsPerNt := m.num[typeId];
    if numNfsPerNt == 0 {
      return 0;
    }
    var instIndex := rss % numNfsPerNt;
    instId := m.nts[typeId, instIndex];
    if m.nfs[instId].bkFlag != 2 {
      return instId;
    }
    ghost var start, k := instId, 0;
    ghost var goal := FirstUsable(m.Abs(), typeId, start, 1);
    assert goal <= MAX_NFS by {
      var j: nat :| j < MAX_NFS && Usable(m.Abs(), typeId, j);
      UsableIsReached(m.Abs(), typeId, start, j);
    }
    AfterNext(start, 0);
    while true
      invariant k < goal && instId == After(start, k)
      decreases goal - k
    {
      AfterNext(start, k);
      instId := instId + 1;
      k := k + 1;
      if instId >= MAX_NFS {
        instId := instId % MAX_NFS;
      }
      var usable := IsUsable(m, instId, typeId);
      if usable {
        return instId;
      }
    }
  }

  // ---------- What the choice means in a reachable state ----------

  lemma HashedIsMember(s: State, y: nat, rss: nat)
    requires Inv(s) && y < MAX_NTS && s.num[y] > 0
    ensures s.num[y] <= MAX_NFS_PER_NT && Hashed(s, y, rss) in Members(s, y)
    ensures 0 < Hashed(s, y, rss) < MAX_NFS
  {
    hide Linked, Local, Members, Registered;
    assert TypeInv(s, y);
    var k := rss % s.num[y];
    assert Ids(s, y)[k] == s.nts[y][k];
    assert Ids(s, y)[k] in Ids(s, y);
    assert Hashed(s, y, rss) in Members(s, y);
    MembersAreSlots(s, y);
  }

  lemma MembersAreSlots(s: State, y: nat)
    requires Inv(s)
    ensures forall i :: i in Members(s, y) ==> 0 < i < MAX_NFS
    ensures forall i: nat :: i < MAX_NFS && Usable(s, y, i) <==>
              i in Open(s, y) && s.infos[s.nfs[i].info.value].status == Running
  {
    hide Local, Counters;
  }

  /** A packet is sent to an unblocked instance of its type, or to none when there is none;
      a replacement for a blocked instance runs, and is the next such instance after it. */
  lemma ChosenIsOpen(s: State, y: nat, rss: nat)
    requires Inv(s) && y < MAX_NTS && s.num[y] <= MAX_NFS_PER_NT
    requires s.num[y] > 0 ==> Hashed(s, y, rss) < MAX_NFS
    requires Terminates(s, y, rss)
    ensures var r := Chosen(s, y, rss);
            (r == 0 <==> Members(s, y) == {}) && (r != 0 ==> r in Open(s, y))
    ensures s.num[y] > 0 && s.nfs[Hashed(s, y, rss)].bkFlag == 2 ==>
              exists k :: 1 <= k <= MAX_NFS && Chosen(s, y, rss) == After(Hashed(s, y, rss), k) &&
                Usable(s, y, Chosen(s, y, rss)) &&
                forall j :: 1 <= j < k ==> !Usable(s, y, After(Hashed(s, y, rss), j))
  {
    hide Local, Members, Usable, Counters;
    MembersAreSlots(s, y);
    Runs.CountersAgree(s, y);
    if s.num[y] > 0 {
      HashedIsMember(s, y, rss);
      var i := Hashed(s, y, rss);
      if s.nfs[i].bkFlag == 2 {
        var j: nat :| j < MAX_NFS && Usable(s, y, j);
        UsableIsReached(s, y, i, j);
        var k := FirstUsable(s, y, i, 1);
        assert Chosen(s, y, rss) == After(i, k);
      }
    }
  }

  /** Once no message waits, the unblocked instances are the running ones. */
  lemma SettledUsable(s: State, y: nat, i: nat)
    requires Inv(s) && s.ring == [] && i in Open(s, y)
    ensures i < MAX_NFS && Usable(s, y, i)
  {
    hide Counters;
    Runs.SettledFlag(s, i);
    assert Local(s, s.nfs[i].info.value);
  }

  /** Once no message waits, the call returns for every packet just when some instance of the
      type is counted available. */
  lemma SettledTerminates(s: State, y: nat)
    requires Inv(s) && y < MAX_NTS && s.ring == [] && 0 < s.num[y] <= MAX_NFS_PER_NT
    ensures forall rss: nat :: Hashed(s, y, rss) < MAX_NFS
    ensures (forall rss: nat :: Terminates(s, y, rss)) <==> s.avail[y] > 0
  {
    hide Local, Counters, Usable, Members;
    forall rss: nat
      ensures Hashed(s, y, rss) in Members(s, y) && Hashed(s, y, rss) < MAX_NFS
    {
      HashedIsMember(s, y, rss);
    }
    Runs.CountersAgree(s, y);
    MembersAreSlots(s, y);
    if s.avail[y] > 0 {
      var i :| i in Open(s, y);
      SettledUsable(s, y, i);
    } else {
      assert Hashed(s, y, 0) !in Open(s, y);
      assert !Terminates(s, y, 0);
    }
  }

  // ---------- The hash ----------

  /** A packet goes to the member whose place in its row is the packet's hash modulo the number of
      members, just when that one is not blocked. */
  lemma HashSelects(s: State, y: nat, rss: nat)
    requires Inv(s) && y < MAX_NTS && 0 < s.num[y] <= MAX_NFS_PER_NT
    ensures Ids(s, y)[rss % s.num[y]] in Members(s, y) && Ids(s, y)[rss % s.num[y]] < MAX_NFS
    ensures PointersOk(s) && Hashed(s, y, rss) < MAX_NFS
    ensures s.nfs[Ids(s, y)[rss % s.num[y]]].bkFlag != 2 ==> Terminates(s, y, rss)
    ensures Terminates(s, y, rss) ==>
              (Chosen(s, y, rss) == Ids(s, y)[rss % s.num[y]] <==> s.nfs[Ids(s, y)[rss % s.num[y]]].bkFlag != 2)
  {
    hide Linked, Local, Members, Usable, Counters;
    assert PointersOk(s) by { InvParts(s); }
    HashedIsMember(s, y, rss);
    var k := rss % s.num[y];
    assert Ids(s, y)[k] == s.nts[y][k] == Hashed(s, y, rss);
    if Terminates(s, y, rss) && s.nfs[Hashed(s, y, rss)].bkFlag == 2 {
      assert Chosen(s, y, rss) != Hashed(s, y, rss) by { ReplacedByOther(s, y, rss); }
    }
  }

  lemma ReplacedByOther(s: State, y: nat, rss: nat)
    requires Inv(s) && y < MAX_NTS && 0 < s.num[y] <= MAX_NFS_PER_NT && PointersOk(s)
    requires Hashed(s, y, rss) < MAX_NFS && Terminates(s, y, rss) && s.nfs[Hashed(s, y, rss)].bkFlag == 2
    ensures Chosen(s, y, rss) != Hashed(s, y, rss)
  {
    hide Linked, Local, Counters;
    ChosenIsOpen(s, y, rss);
  }

  /** Of any num successive hashes exactly one selects a given member, and when the member is not
      blocked, packets with that hash go to it. */
  lemma EqualShares(s: State, y: nat, i: nat, start: nat)
    requires Inv(s) && y < MAX_NTS && i in Members(s, y)
    ensures 0 < s.num[y] <= MAX_NFS_PER_NT && PointersOk(s)
    ensures exists rss: nat :: start <= rss < start + s.num[y] && Ids(s, y)[rss % s.num[y]] == i &&
              (s.nfs[i].bkFlag != 2 ==> Hashed(s, y, rss) < MAX_NFS && Terminates(s, y, rss) && Chosen(s, y, rss) == i) &&
              forall h: nat :: start <= h < start + s.num[y] && Ids(s, y)[h % s.num[y]] == i ==> h == rss
  {
    hide Linked, Local, Members, Usable, Counters, Terminates, Chosen;
    InvParts(s);
    Runs.CountersAgree(s, y);
    var ids, n := Ids(s, y), s.num[y];
    var k :| 0 <= k < |ids| && ids[k] == i;
    var rss := Residue(start, n, k);
    HashSelects(s, y, rss);
    forall h: nat | start <= h < start + n && ids[h % n] == i
      ensures h == rss
    {
      SamePlace(ids, h % n, k);
      OneResidue(start, n, h, rss);
    }
  }

  lemma SamePlace(ids: seq<nat>, j: nat, k: nat)
    requires Distinct(ids) && j < |ids| && k < |ids| && ids[j] == ids[k]
    ensures j == k
  {
  }
}

/**
 The master thread: the message handlers as they update the shared memory in place, each
 shown to perform the step of module Registry, and the loop that empties the message ring.
 */
module Master {
  import opened Registry
  import opened SharedMemory
  import Lifecycle
  import Runs

  /** d2sc_nf_is_valid */
  method IsValid(m: Shared, i: nat) returns (valid: bool)
    requires m.WellFormed() && PointersOk(m.Abs()) && i < MAX_NFS
    ensures valid == Valid(m.Abs(), i)
    ensures valid <==> m.nfs[i].info.Some? && m.infos[m.nfs[i].info.value].status == Running
  {
    valid := m.nfs[i].info.Some? && m.infos[m.nfs[i].info.value].status == Running;
  }

  method NextInstId(m: Shared) returns (id: nat)
    requires m.WellFormed() && PointersOk(m.Abs())
    modifies m`nextId
    ensures id == NextUnused(ValidFlags(old(m.Abs())), old(m.nextId))
    ensures m.nextId == if old(m.nextId) < MAX_NFS then id + 1 else old(m.nextId)
    ensures id == MAX_NFS <==> old(m.nextId) >= MAX_NFS
    ensures forall j :: old(m.nextId) <= j < id && j < MAX_NFS ==> Valid(old(m.Abs()), j)
    ensures old(m.nextId) <= id < MAX_NFS - 1 ==> !Valid(old(m.Abs()), id)
  {
    id := MAX_NFS;
    while m.nextId < MAX_NFS
      invariant m.WellFormed() && m.Abs() == old(m.Abs()).(nextId := m.nextId)
      invariant (m.nextId == old(m.nextId) && id == MAX_NFS) ||
                (m.nextId == id + 1 && old(m.nextId) <= id < MAX_NFS && Valid(m.Abs(), id))
      invariant NextUnused(ValidFlags(old(m.Abs())), old(m.nextId)) ==
                if m.nextId == MAX_NFS && id < MAX_NFS then id
                else NextUnused(ValidFlags(old(m.Abs())), m.nextId)
      decreases MAX_NFS - m.nextId
    {
      id := m.nextId;
      m.nextId := m.nextId + 1;
      var valid := IsValid(m, id);
      if !valid {
        break;
      }
    }
    ghost var flags := ValidFlags(old(m.Abs()));
    if old(m.nextId) < MAX_NFS {
      Runs.FirstUnused(flags, old(m.nextId));
    }
    assert forall j :: 0 <= j < MAX_NFS ==> flags[j] == Valid(old(m.Abs()), j);
  }

  method NfStart(m: Shared, h: nat)
    requires m.WellFormed() && PointersOk(m.Abs()) && h < MAX_NFS
    requires m.infos[h].instId == NO_ID || m.infos[h].instId < MAX_NFS
    modifies m, m.infos, m.nfs
    ensures m.WellFormed() && m.Abs() == Registry.NfStart(old(m.Abs()), h)
  {
    hide NextUnused, ValidFlags;
    if m.infos[h].status != WaitingForId {
      return;
    }
    var nfId := m.infos[h].instId;
    if nfId == NO_ID {
      nfId := NextInstId(m);
    }
    if nfId >= MAX_NFS {
      m.infos[h] := m.infos[h].(status := NoIds);
      return;
    }
    var taken := IsValid(m, nfId);
    if taken {
      m.infos[h] := m.infos[h].(status := IdConflict);
      return;
    }
    m.infos[h] := m.infos[h].(instId := nfId);
    m.nfs[nfId] := m.nfs[nfId].(info := Some(h));
    m.nfs[nfId] := m.nfs[nfId].(instId := nfId);
    m.infos[h] := m.infos[h].(status := Starting);
  }

  method NfReady(m: Shared, h: nat)
    requires m.WellFormed() && h < MAX_NFS
    requires m.infos[h].status == Starting ==> RowHasRoom(m.Abs(), m.infos[h].typeId)
    modifies m, m.infos, m.nts, m.num, m.avail
    ensures m.WellFormed() && m.Abs() == Registry.NfReady(old(m.Abs()), h)
  {
    if m.infos[h].status != Starting {
      return;
    }
    m.infos[h] := m.infos[h].(status := Running);
    var ntId := m.infos[h].typeId;
    var ntNum := m.num[ntId];
    m.num[ntId] := Inc(m.num[ntId]);
    m.avail[ntId] := Inc(m.avail[ntId]);
    m.nts[ntId, ntNum] := m.infos[h].instId;
    m.numNfs := Inc(m.numNfs);
    assert m.Row(ntId) == PutInRow(old(m.Row(ntId)), ntNum, m.infos[h].instId);
    forall t: nat | t < MAX_NTS && t != ntId
      ensures m.Row(t) == old(m.Row(t))
    {
    }
    assert m.Rows() == old(m.Rows())[ntId := m.Row(ntId)];
  }

  method NfBlock(m: Shared, h: nat)
    requires m.WellFormed() && PointersOk(m.Abs()) && h < MAX_NFS
    requires m.infos[h].instId < MAX_NFS && m.infos[h].typeId < MAX_NTS && m.nfs[m.infos[h].instId].info.Some?
    modifies m.infos, m.nfs, m.avail
    ensures m.WellFormed() && m.Abs() == Registry.NfBlock(old(m.Abs()), h)
    ensures old(m.infos[h].status == Blocked && m.nfs[m.infos[h].instId].bkFlag == 1) ==>
              var slot := m.nfs[m.infos[h].instId]; slot.bkFlag == 2 && m.infos[slot.info.value].status == Blocked
  {
    if m.infos[h].status != Blocked {
      return;
    }
    var nfId, ntId := m.infos[h].instId, m.infos[h].typeId;
    if m.nfs[nfId].bkFlag != 1 {
      return;
    }
    m.nfs[nfId] := m.nfs[nfId].(bkFlag := 2);
    m.avail[ntId] := Dec(m.avail[ntId]);
    var p := m.nfs[nfId].info.value;
    m.infos[p] := m.infos[p].(status := m.infos[h].status);
  }

  method NfRun(m: Shared, h: nat)
    requires m.WellFormed() && PointersOk(m.Abs()) && h < MAX_NFS
    requires m.infos[h].instId < MAX_NFS && m.infos[h].typeId < MAX_NTS && m.nfs[m.infos[h].instId].info.Some?
    modifies m.infos, m.nfs, m.avail
    ensures m.WellFormed() && m.Abs() == Registry.NfRun(old(m.Abs()), h)
    ensures old(m.infos[h].status == Running && m.nfs[m.infos[h].instId].bkFlag == 2) ==>
              var slot := m.nfs[m.infos[h].instId]; slot.bkFlag == 0 && m.infos[slot.info.value].status == Running
  {
    if m.infos[h].status != Running {
      return;
    }
    var nfId, ntId := m.infos[h].instId, m.infos[h].typeId;
    if m.nfs[nfId].bkFlag != 2 {
      return;
    }
    m.nfs[nfId] := m.nfs[nfId].(bkFlag := 0);
    m.avail[ntId] := Inc(m.avail[ntId]);
    var p := m.nfs[nfId].info.value;
    m.infos[p] := m.infos[p].(status := m.infos[h].status);
  }

  method NfSrvTime(m: Shared, h: nat)
    requires m.WellFormed() && PointersOk(m.Abs()) && h < MAX_NFS
    requires m.infos[h].instId < MAX_NFS && m.nfs[m.infos[h].instId].info.Some?
    modifies m.infos
    ensures m.WellFormed() && m.Abs() == Registry.NfSrvTime(old(m.Abs()), h)
    ensures m.infos[m.nfs[m.infos[h].instId].info.value].srvTime == old(m.infos[h].srvTime)
  {
    var p := m.nfs[m.infos[h].instId].info.value;
    m.infos[p] := m.infos[p].(srvTime := m.infos[h].srvTime);
  }

  /** Where a nonzero run that was followed entry by entry ends. */
  lemma RunEndFound(row: seq<nat>, from: nat, e: nat)
    requires from <= e <= |row|
    requires forall k :: from <= k < e ==> row[k] != 0
    requires e < |row| ==> row[e] == 0
    ensures RunEnd(row, from) == e
  {
    var f := RunEnd(row, from);
    assert f >= e by {
      if f < |row| {
        assert row[f] == 0;
      }
    }
    assert f <= e by {
      if e < |row| {
        assert row[e] == 0;
      }
    }
  }

  /** The row after the gap at position `at` has moved to position `gap`. */
  ghost function GapAt(row: seq<nat>, at: nat, gap: nat): seq<nat>
    requires at <= gap < |row|
  {
    row[..at] + row[at + 1..gap + 1] + [0] + row[gap + 1..]
  }

  lemma GapMoves(row: seq<nat>, at: nat, gap: nat)
    requires at <= gap < |row| - 1
    ensures var now := GapAt(row, at, gap);
            PutInRow(PutInRow(now, gap, now[gap + 1]), gap + 1, 0) == GapAt(row, at, gap + 1)
  {
  }

  /** Where a search that met only other entries finds the id. */
  lemma IndexFound(row: seq<nat>, id: nat, at: nat)
    requires at <= |row| && (at < |row| ==> row[at] == id)
    requires forall k :: 0 <= k < at ==> row[k] != id
    ensures IndexOf(row, id) == at
  {
    assert at < |row| ==> row[at] == id;
  }

  method FindId(m: Shared, t: nat, id: nat) returns (matchId: nat)
    requires m.WellFormed() && t < MAX_NTS
    ensures matchId == IndexOf(m.Row(t), id)
  {
    matchId := 0;
    while matchId < MAX_NFS_PER_NT
      invariant matchId <= MAX_NFS_PER_NT
      invariant forall k :: 0 <= k < matchId ==> m.Row(t)[k] != id
    {
      if m.nts[t, matchId] == id {
        break;
      }
      matchId := matchId + 1;
    }
    IndexFound(m.Row(t), id, matchId);
  }

  /** Moves the run after position `at` up by one entry. */
  method CloseGap(m: Shared, t: nat, at: nat)
    requires m.WellFormed() && t < MAX_NTS && at < MAX_NFS_PER_NT
    modifies m.nts
    ensures var row := old(m.Row(t)); m.Row(t) == GapAt(row, at, RunEnd(row, at + 1) - 1)
    ensures forall y: nat :: y < MAX_NTS && y != t ==> m.Row(y) == old(m.Row(y))
  {
    hide GapAt;
    ghost var row := m.Row(t);
    m.nts[t, at] := 0;
    assert m.Row(t) == GapAt(row, at, at) by { GapStart(row, m.Row(t), at); }
    var matchId := at;
    while matchId < MAX_NFS_PER_NT - 1
      invariant at <= matchId < MAX_NFS_PER_NT
      invariant m.Row(t) == GapAt(row, at, matchId)
      invariant forall k :: at < k <= matchId ==> row[k] != 0
      invariant forall y: nat :: y < MAX_NTS && y != t ==> m.Row(y) == old(m.Row(y))
    {
      ghost var now := m.Row(t);
      GapTail(row, at, matchId);
      GapMoves(row, at, matchId);
      assert m.nts[t, matchId + 1] == now[matchId + 1];
      if m.nts[t, matchId + 1] == 0 {
        break;
      }
      m.nts[t, matchId] := m.nts[t, matchId + 1];
      m.nts[t, matchId + 1] := 0;
      assert m.Row(t) == PutInRow(PutInRow(now, matchId, now[matchId + 1]), matchId + 1, 0);
      matchId := matchId + 1;
    }
    RunEndFound(row, at + 1, matchId + 1);
  }

  lemma GapStart(row: seq<nat>, now: seq<nat>, at: nat)
    requires at < |row| && now == PutInRow(row, at, 0)
    ensures now == GapAt(row, at, at)
  {
  }

  lemma GapTail(row: seq<nat>, at: nat, gap: nat)
    requires at <= gap < |row| - 1
    ensures |GapAt(row, at, gap)| == |row| && GapAt(row, at, gap)[gap + 1] == row[gap + 1]
  {
  }

  /** Takes an id out of a row of the type map and moves up the entries after it. */
  method RemoveId(m: Shared, t: nat, id: nat)
    requires m.WellFormed() && t < MAX_NTS
    modifies m.nts
    ensures m.Row(t) == RemoveFromRow(old(m.Row(t)), id)
    ensures forall y: nat :: y < MAX_NTS && y != t ==> m.Row(y) == old(m.Row(y))
  {
    hide IndexOf, RunEnd;
    var matchId := FindId(m, t, id);
    if matchId < MAX_NFS_PER_NT {
      CloseGap(m, t, matchId);
    }
  }

  /** d2sc_nf_stop; its caller takes the instance off num_nfs. */
  method NfStop(m: Shared, h: nat)
    requires m.WellFormed() && h < MAX_NFS && m.infos[h].instId < MAX_NFS && m.infos[h].typeId < MAX_NTS
    modifies m, m.nfs, m.nts, m.num, m.avail
    ensures m.WellFormed() && m.Abs() == Registry.NfStop(old(m.Abs()), h)
  {
    hide RemoveFromRow;
    var nfId, ntId := m.infos[h].instId, m.infos[h].typeId;
    m.nfs[nfId] := m.nfs[nfId].(info := None);
    m.num[ntId] := Dec(m.num[ntId]);
    m.avail[ntId] := Dec(m.avail[ntId]);
    RemoveId(m, ntId, nfId);
    assert m.Rows() == old(m.Rows())[ntId := m.Row(ntId)];
    m.procs := m.procs[h := Free];
    m.numNfs := Dec(m.numNfs);
  }

  method Handle(m: Shared, msg: Msg)
    requires m.WellFormed() && Safe(m.Abs(), msg)
    modifies m, m.infos, m.nfs, m.nts, m.num, m.avail
    ensures m.WellFormed() && m.Abs() == Dispatch(old(m.Abs()), msg)
  {
    hide Registry.NfStart, Registry.NfReady, Registry.NfStop, Registry.NfBlock, Registry.NfRun, Registry.NfSrvTime;
    match msg.kind {
      case MsgStarting => NfStart(m, msg.info);
      case MsgReady => NfReady(m, msg.info);
      case MsgStopping => NfStop(m, msg.info);
      case MsgBlocking => NfBlock(m, msg.info);
      case MsgRunning => NfRun(m, msg.info);
      case MsgSrvTime => NfSrvTime(m, msg.info);
    }
  }

  /** The messages now in the ring are taken out in one go and handled in order. */
  method CheckStatus(m: Shared)
    requires m.WellFormed() && Lifecycle.Inv(m.Abs()) && Runs.Drainable(m.Abs())
    modifies m, m.infos, m.nfs, m.nts, m.num, m.avail
    ensures m.WellFormed() && m.Abs() == Runs.Drain(old(m.Abs()))
    ensures Lifecycle.Inv(m.Abs()) && m.ring == []
  {
    hide Lifecycle.Inv, Safe, Dispatch;
    var msgs := m.ring;
    m.ring := [];
    assert m.Abs().(ring := msgs[0..]) == old(m.Abs());
    for i := 0 to |msgs|
      invariant m.WellFormed() && m.ring == []
      invariant var s := m.Abs().(ring := msgs[i..]);
                Lifecycle.Inv(s) && Runs.Drainable(s) && Runs.Drain(s) == Runs.Drain(old(m.Abs()))
    {
      ghost var s := m.Abs().(ring := msgs[i..]);
      assert s.ring[0] == msgs[i] && s.ring[1..] == msgs[i + 1..];
      Runs.HandleKeeps(s);
      Runs.DispatchLeavesRing(s, [], msgs[i]);
      Runs.DispatchLeavesRing(m.Abs(), msgs[i..], msgs[i]);
      Handle(m, msgs[i]);
      assert m.Abs().(ring := msgs[i + 1..]) == Lifecycle.HandleNext(s);
    }
    assert m.Abs().(ring := msgs[|msgs|..]) == m.Abs();
  }
}

/**
 The records the manager and its network functions share, and the manager's message
 handlers as functions from state to state.
 */
module Registry {

  const MAX_NFS: nat := 16
  const MAX_NTS: nat := 16
  const MAX_NFS_PER_NT: nat := 8

  /** NF_NO_ID as a 16-bit number: the instance id is left to the manager. */
  const NO_ID: nat := 65535

  datatype Option<+T> = None | Some(value: T)

  datatype Status = WaitingForId | Starting | Running | Blocked | Stopped | IdConflict | NoIds

  /** d2sc_nf_info, shared by pointer between an NF and the manager. */
  datatype Info = Info(instId: nat, typeId: nat, status: Status, srvTime: nat, maxLoad: nat)

  datatype ScaleSig = ScaleRun | ScaleBlock | ScaleUp

  datatype ScaleMsg = ScaleMsg(sig: ScaleSig, instId: nat, scaleNum: nat)

  /** d2sc_nf: the manager's entry for an instance.  `info` is the index of the record pointed
      to in the pool of info records, and scaleQ is the ring of messages to the instance. */
  datatype Slot = Slot(info: Option<nat>, instId: nat, olFlag: nat, bkFlag: nat, pktRate: nat, scaleNum: nat,
                       scaleQ: seq<ScaleMsg>)

  datatype MsgKind = MsgStarting | MsgReady | MsgStopping | MsgBlocking | MsgRunning | MsgSrvTime

  datatype Msg = Msg(kind: MsgKind, info: nat)

  /** Where the program that owns an info record stands: it took the record and asked for an
      id, it reported ready, or it reported that it stops.  Free records are in the pool. */
  datatype Process = Free | Started | Reported | Exited

  datatype State = State(
    infos: seq<Info>, procs: seq<Process>, nfs: seq<Slot>,
    nts: seq<seq<nat>>, num: seq<nat>, avail: seq<nat>, numNfs: nat, nextId: nat,
    ring: seq<Msg>)

  ghost predicate Shape(s: State) {
    |s.infos| == |s.procs| == |s.nfs| == MAX_NFS &&
    |s.nts| == |s.num| == |s.avail| == MAX_NTS &&
    (forall t :: 0 <= t < MAX_NTS ==> |s.nts[t]| == MAX_NFS_PER_NT)
  }

  // ---------- 16-bit counters ----------

  function Inc(c: nat): nat {
    (c + 1) % 65536
  }

  function Dec(c: nat): nat {
    if c == 0 then 65535 else c - 1
  }

  /** The type has a row in the type map with room for one more instance. */
  predicate RowHasRoom(s: State, t: nat)
    requires Shape(s)
  {
    t < MAX_NTS && s.num[t] < MAX_NFS_PER_NT
  }

  // ---------- Instance ids ----------

  /** d2sc_nf_is_valid */
  predicate Valid(s: State, i: nat)
    requires i < |s.nfs|
    requires s.nfs[i].info.Some? ==> s.nfs[i].info.value < |s.infos|
  {
    s.nfs[i].info.Some? && s.infos[s.nfs[i].info.value].status == Running
  }

  /** The first index from `from` on whose slot is not valid; the last index when all are,
      and MAX_NFS when none is left. */
  function NextUnused(valid: seq<bool>, from: nat): nat
    decreases |valid| - from
  {
    if from >= |valid| then |valid|
    else if !valid[from] || from == |valid| - 1 then from
    else NextUnused(valid, from + 1)
  }

  ghost predicate PointersOk(s: State) {
    forall i :: 0 <= i < |s.nfs| && s.nfs[i].info.Some? ==> s.nfs[i].info.value < |s.infos|
  }

  function ValidFlags(s: State): (v: seq<bool>)
    requires PointersOk(s)
    ensures |v| == |s.nfs|
  {
    seq(|s.nfs|, i requires 0 <= i < |s.nfs| => Valid(s, i))
  }

  // ---------- Type rows ----------

  /** The position of the first entry equal to id, or the row length. */
  function IndexOf(row: seq<nat>, id: nat): (m: nat)
    ensures m <= |row|
    ensures m < |row| ==> row[m] == id
    ensures forall k :: 0 <= k < m ==> row[k] != id
  {
    if row == [] then 0
    else if row[0] == id then 0
    else 1 + IndexOf(row[1..], id)
  }

  /** The end of the run of nonzero entries that starts at `from`. */
  function RunEnd(row: seq<nat>, from: nat): (e: nat)
    requires from <= |row|
    ensures from <= e <= |row|
    ensures forall k :: from <= k < e ==> row[k] != 0
    ensures e < |row| ==> row[e] == 0
    decreases |row| - from
  {
    if from == |row| || row[from] == 0 then from else RunEnd(row, from + 1)
  }

  /** The row without its first entry equal to id; the run after it moves up by one. */
  function RemoveFromRow(row: seq<nat>, id: nat): (r: seq<nat>)
    ensures |r| == |row|
  {
    var m := IndexOf(row, id);
    if m == |row| then row
    else
      var e := RunEnd(row, m + 1);
      row[..m] + row[m + 1..e] + [0] + row[e..]
  }

  function PutInRow(row: seq<nat>, at: nat, id: nat): (r: seq<nat>)
    requires at < |row|
    ensures |r| == |row|
  {
    row[at := id]
  }

  // ---------- The handlers ----------

  function SetStatus(s: State, h: nat, status: Status): State
    requires h < |s.infos|
  {
    s.(infos := s.infos[h := s.infos[h].(status := status)])
  }

  /** d2sc_nf_start */
  function NfStart(s: State, h: nat): State
    requires Shape(s) && PointersOk(s) && h < MAX_NFS
    requires s.infos[h].instId == NO_ID || s.infos[h].instId < MAX_NFS
  {
    if s.infos[h].status != WaitingForId then s
    else
      var assign := s.infos[h].instId == NO_ID;
      var id := if assign then NextUnused(ValidFlags(s), s.nextId) else s.infos[h].instId;
      var t := if !assign then s else s.(nextId := if s.nextId < MAX_NFS then id + 1 else s.nextId);
      if id >= MAX_NFS then SetStatus(t, h, NoIds)
      else if Valid(t, id) then SetStatus(t, h, IdConflict)
      else t.(infos := t.infos[h := t.infos[h].(instId := id, status := Starting)],
              nfs := t.nfs[id := t.nfs[id].(info := Some(h), instId := id)])
  }

  /** d2sc_nf_ready: the type must have a row, and the row must have room. */
  function NfReady(s: State, h: nat): State
    requires Shape(s) && h < MAX_NFS
    requires s.infos[h].status == Starting ==> RowHasRoom(s, s.infos[h].typeId)
  {
    if s.infos[h].status != Starting then s
    else
      var t := s.infos[h].typeId;
      SetStatus(s, h, Running).(
        num := s.num[t := Inc(s.num[t])],
        avail := s.avail[t := Inc(s.avail[t])],
        nts := s.nts[t := PutInRow(s.nts[t], s.num[t], s.infos[h].instId)],
        numNfs := Inc(s.numNfs))
  }

  /** d2sc_nf_stop and the decrement of num_nfs at its call.  The record goes back to the pool. */
  function NfStop(s: State, h: nat): State
    requires Shape(s) && h < MAX_NFS && s.infos[h].instId < MAX_NFS && s.infos[h].typeId < MAX_NTS
  {
    var i, t := s.infos[h].instId, s.infos[h].typeId;
    s.(nfs := s.nfs[i := s.nfs[i].(info := None)],
       num := s.num[t := Dec(s.num[t])],
       avail := s.avail[t := Dec(s.avail[t])],
       nts := s.nts[t := RemoveFromRow(s.nts[t], i)],
       numNfs := Dec(s.numNfs),
       procs := s.procs[h := Free])
  }

  /** Writes the status of record h into the record the slot of its instance points to. */
  function CopyStatus(s: State, h: nat): State
    requires Shape(s) && PointersOk(s) && h < MAX_NFS && s.infos[h].instId < MAX_NFS
    requires s.nfs[s.infos[h].instId].info.Some?
  {
    SetStatus(s, s.nfs[s.infos[h].instId].info.value, s.infos[h].status)
  }

  /** d2sc_nf_block */
  function NfBlock(s: State, h: nat): State
    requires Shape(s) && PointersOk(s) && h < MAX_NFS && s.infos[h].instId < MAX_NFS && s.infos[h].typeId < MAX_NTS
    requires s.nfs[s.infos[h].instId].info.Some?
  {
    var i, t := s.infos[h].instId, s.infos[h].typeId;
    if s.infos[h].status != Blocked || s.nfs[i].bkFlag != 1 then s
    else CopyStatus(s, h).(nfs := s.nfs[i := s.nfs[i].(bkFlag := 2)], avail := s.avail[t := Dec(s.avail[t])])
  }

  /** d2sc_nf_run */
  function NfRun(s: State, h: nat): State
    requires Shape(s) && PointersOk(s) && h < MAX_NFS && s.infos[h].instId < MAX_NFS && s.infos[h].typeId < MAX_NTS
    requires s.nfs[s.infos[h].instId].info.Some?
  {
    var i, t := s.infos[h].instId, s.infos[h].typeId;
    if s.infos[h].status != Running || s.nfs[i].bkFlag != 2 then s
    else CopyStatus(s, h).(nfs := s.nfs[i := s.nfs[i].(bkFlag := 0)], avail := s.avail[t := Inc(s.avail[t])])
  }

  /** d2sc_nf_srv_time */
  function NfSrvTime(s: State, h: nat): State
    requires Shape(s) && PointersOk(s) && h < MAX_NFS && s.infos[h].instId < MAX_NFS
    requires s.nfs[s.infos[h].instId].info.Some?
  {
    var p := s.nfs[s.infos[h].instId].info.value;
    s.(infos := s.infos[p := s.infos[p].(srvTime := s.infos[h].srvTime)])
  }

  /** Every record the handler of a message touches exists.  The block, run and service-time
      handlers also write through the slot's pointer, which must therefore be set. */
  ghost predicate Safe(s: State, m: Msg) {
    Shape(s) && PointersOk(s) && m.info < MAX_NFS &&
    var info := s.infos[m.info];
    match m.kind
    case MsgStarting => info.instId == NO_ID || info.instId < MAX_NFS
    case MsgReady => info.status == Starting ==> RowHasRoom(s, info.typeId)
    case MsgStopping => info.instId < MAX_NFS && info.typeId < MAX_NTS
    case MsgSrvTime => info.instId < MAX_NFS && s.nfs[info.instId].info.Some?
    case _ => info.instId < MAX_NFS && info.typeId < MAX_NTS && s.nfs[info.instId].info.Some?
  }

  /** The switch of d2sc_nf_check_status. */
  function Dispatch(s: State, m: Msg): State
    requires Safe(s, m)
  {
    match m.kind
    case MsgStarting => NfStart(s, m.info)
    case MsgReady => NfReady(s, m.info)
    case MsgStopping => NfStop(s, m.info)
    case MsgBlocking => NfBlock(s, m.info)
    case MsgRunning => NfRun(s, m.info)
    case MsgSrvTime => NfSrvTime(s, m.info)
  }
}

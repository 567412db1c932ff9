/**
 The side of the network functions: the messages they send to the manager and what they do
 with those of the scale thread, as updates of the shared memory.
 */
module NfRuntime {
  import opened Registry
  import opened SharedMemory
  import opened Lifecycle
  import Runs

  /** d2sc_nfrt_info_init and the message of d2sc_nfrt_start_nf, for a free record. */
  method StartNf(m: Shared, h: nat, typeId: nat, maxLoad: nat)
    requires m.WellFormed() && PointersOk(m.Abs()) && Enabled(m.Abs(), TakeRecord(h, typeId, maxLoad))
    modifies m, m.infos
    ensures m.WellFormed() && m.Abs() == Apply(old(m.Abs()), TakeRecord(h, typeId, maxLoad))
    ensures m.infos[h] == Info(NO_ID, typeId, WaitingForId, old(m.infos[h].srvTime), maxLoad)
    ensures m.ring == old(m.ring) + [Msg(MsgStarting, h)]
    ensures old(Inv(m.Abs())) ==> Inv(m.Abs())
  {
    hide Inv;
    if Inv(m.Abs()) {
      Runs.StepKeeps(m.Abs(), TakeRecord(h, typeId, maxLoad));
    }
    m.infos[h] := m.infos[h].(instId := NO_ID, typeId := typeId, status := WaitingForId, maxLoad := maxLoad);
    m.procs := m.procs[h := Started];
    m.ring := m.ring + [Msg(MsgStarting, h)];
  }

  /** d2sc_nfrt_nf_ready */
  method NfReady(m: Shared, h: nat)
    requires m.WellFormed() && PointersOk(m.Abs()) && Enabled(m.Abs(), Report(h))
    modifies m
    ensures m.WellFormed() && m.Abs() == Apply(old(m.Abs()), Report(h))
    ensures m.ring == old(m.ring) + [Msg(MsgReady, h)]
    ensures old(Inv(m.Abs())) ==> Inv(m.Abs())
  {
    hide Inv;
    if Inv(m.Abs()) {
      Runs.StepKeeps(m.Abs(), Report(h));
    }
    m.procs := m.procs[h := Reported];
    m.ring := m.ring + [Msg(MsgReady, h)];
  }

  /** The service time measured in d2sc_nfrt_run_callback and d2sc_nfrt_nf_srv_time. */
  method NfSrvTime(m: Shared, h: nat, time: nat)
    requires m.WellFormed() && PointersOk(m.Abs()) && Enabled(m.Abs(), SendSrvTime(h, time))
    modifies m, m.infos
    ensures m.WellFormed() && m.Abs() == Apply(old(m.Abs()), SendSrvTime(h, time))
    ensures m.infos[h].srvTime == time && m.ring == old(m.ring) + [Msg(MsgSrvTime, h)]
    ensures old(Inv(m.Abs())) ==> Inv(m.Abs())
  {
    hide Inv;
    if Inv(m.Abs()) {
      Runs.StepKeeps(m.Abs(), SendSrvTime(h, time));
    }
    m.infos[h] := m.infos[h].(srvTime := time);
    m.ring := m.ring + [Msg(MsgSrvTime, h)];
  }

  /** d2sc_nfrt_stop */
  method Stop(m: Shared, h: nat)
    requires m.WellFormed() && PointersOk(m.Abs()) && Enabled(m.Abs(), Leave(h))
    modifies m, m.infos
    ensures m.WellFormed() && m.Abs() == Apply(old(m.Abs()), Leave(h))
    ensures m.infos[h].status == Stopped && m.ring == old(m.ring) + [Msg(MsgStopping, h)]
    ensures old(Inv(m.Abs())) ==> Inv(m.Abs())
  {
    hide Inv;
    if Inv(m.Abs()) {
      Runs.StepKeeps(m.Abs(), Leave(h));
    }
    m.infos[h] := m.infos[h].(status := Stopped);
    m.ring := m.ring + [Msg(MsgStopping, h)];
    m.procs := m.procs[h := Exited];
  }

  /** d2sc_nfrt_scale_block */
  method ScaleBlockNf(m: Shared, h: nat)
    requires m.WellFormed() && h < MAX_NFS
    modifies m, m.infos
    ensures m.WellFormed() && m.Abs() == Send(SetStatus(old(m.Abs()), h, Blocked), MsgBlocking, h)
  {
    m.infos[h] := m.infos[h].(status := Blocked);
    m.ring := m.ring + [Msg(MsgBlocking, h)];
  }

  /** d2sc_nfrt_scale_run: only a blocked instance answers. */
  method ScaleRunNf(m: Shared, h: nat)
    requires m.WellFormed() && h < MAX_NFS
    modifies m, m.infos
    ensures m.WellFormed()
    ensures m.Abs() == if old(m.infos[h].status) == Blocked
                       then Send(SetStatus(old(m.Abs()), h, Running), MsgRunning, h) else old(m.Abs())
  {
    if m.infos[h].status != Blocked {
      return;
    }
    m.infos[h] := m.infos[h].(status := Running);
    m.ring := m.ring + [Msg(MsgRunning, h)];
  }

  /** d2sc_nfrt_check_scale_msg of instance i; starting child instances is a separate step. */
  method CheckScaleMsg(m: Shared, i: nat)
    requires m.WellFormed() && PointersOk(m.Abs()) && i < MAX_NFS && m.nfs[i].info.Some?
    modifies m, m.infos, m.nfs
    ensures m.WellFormed()
    ensures m.Abs() == if old(m.nfs[i].scaleQ) == [] then old(m.Abs()) else ReadScaleMsg(old(m.Abs()), i)
    ensures old(Inv(m.Abs()) && m.procs[m.nfs[i].info.value] == Reported) ==> Inv(m.Abs())
  {
    hide Inv;
    if Inv(m.Abs()) && m.procs[m.nfs[i].info.value] == Reported && m.nfs[i].scaleQ != [] {
      Runs.StepKeeps(m.Abs(), Poll(i));
    }
    if |m.nfs[i].scaleQ| == 0 {
      return;
    }
    var msg := m.nfs[i].scaleQ[0];
    m.nfs[i] := m.nfs[i].(scaleQ := m.nfs[i].scaleQ[1..]);
    match msg.sig {
      case ScaleUp =>
      case ScaleBlock =>
        if msg.instId == m.nfs[i].instId && m.nfs[i].bkFlag == 1 {
          ScaleBlockNf(m, m.nfs[i].info.value);
        }
      case ScaleRun =>
        if msg.instId == m.nfs[i].instId && m.nfs[i].bkFlag == 2 {
          ScaleRunNf(m, m.nfs[i].info.value);
        }
    }
  }
}

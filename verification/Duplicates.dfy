/**
 The scale thread repeats its messages.  What an instance does with the messages in its queue,
 and that a repeated one has no effect of its own.
 */
module Duplicates {
  import opened Registry
  import opened Lifecycle
  import opened Runs

  /** The state with the first scale message of instance i left out. */
  function Popped(s: State, i: nat): State
    requires i < |s.nfs| && s.nfs[i].scaleQ != []
  {
    s.(nfs := s.nfs[i := s.nfs[i].(scaleQ := s.nfs[i].scaleQ[1..])])
  }

  predicate Occupied(s: State, i: nat)
    requires Shape(s)
  {
    i < MAX_NFS && s.nfs[i].info.Some?
  }

  /** Instance i would answer the message. */
  predicate Answers(s: State, i: nat, m: ScaleMsg)
    requires Shape(s) && PointersOk(s) && Occupied(s, i)
  {
    m.instId == s.nfs[i].instId &&
    match m.sig
    case ScaleUp => false
    case ScaleBlock => s.nfs[i].bkFlag == 1
    case ScaleRun => s.nfs[i].bkFlag == 2 && s.infos[s.nfs[i].info.value].status == Blocked
  }

  /** The state after instance i has read its first k messages. */
  function Read(s: State, i: nat, k: nat): (r: State)
    requires Shape(s) && PointersOk(s) && Occupied(s, i) && k <= |s.nfs[i].scaleQ|
    ensures Shape(r) && PointersOk(r) && Occupied(r, i) && r.nfs[i].info == s.nfs[i].info
    ensures r.nfs[i].scaleQ == s.nfs[i].scaleQ[k..]
    ensures r.nfs[i].bkFlag == s.nfs[i].bkFlag && r.nfs[i].instId == s.nfs[i].instId
  {
    if k == 0 then s else ReadScaleMsg(Read(s, i, k - 1), i)
  }

  /** The message would not be answered, or only with a copy of the last answer. */
  predicate Inert(s: State, i: nat, m: ScaleMsg)
    requires Shape(s) && PointersOk(s) && Occupied(s, i)
  {
    var h := s.nfs[i].info.value;
    !Answers(s, i, m) ||
    (m.sig == ScaleBlock && s.ring != [] && s.ring[|s.ring| - 1] == Msg(MsgBlocking, h) && s.infos[h].status == Blocked)
  }

  /** A message that has been read is inert, and no other message read makes it effective. */
  lemma InertAfter(s: State, i: nat, m: ScaleMsg)
    requires Shape(s) && PointersOk(s) && Occupied(s, i) && s.nfs[i].scaleQ != []
    requires Inert(s, i, m) || s.nfs[i].scaleQ[0] == m
    ensures var t := ReadScaleMsg(s, i);
            Shape(t) && PointersOk(t) && Occupied(t, i) && Inert(t, i, m)
  {
  }

  lemma {:induction false} InertFrom(s: State, i: nat, a: nat, b: nat)
    requires Shape(s) && PointersOk(s) && Occupied(s, i) && a < b <= |s.nfs[i].scaleQ|
    ensures Inert(Read(s, i, b), i, s.nfs[i].scaleQ[a])
    decreases b
  {
    hide Inert, PointersOk;
    var t := Read(s, i, b - 1);
    if a < b - 1 {
      InertFrom(s, i, a, b - 1);
    } else {
      assert t.nfs[i].scaleQ[0] == s.nfs[i].scaleQ[a];
    }
    InertAfter(t, i, s.nfs[i].scaleQ[a]);
  }

  // ---------- The queue of scale messages does not matter to the handlers ----------

  lemma DispatchPopped(s: State, i: nat, m: Msg)
    requires Safe(s, m) && i < MAX_NFS && s.nfs[i].scaleQ != []
    ensures Safe(Popped(s, i), m) && Dispatch(s, m).nfs[i].scaleQ == s.nfs[i].scaleQ
    ensures Dispatch(Popped(s, i), m) == Popped(Dispatch(s, m), i)
  {
    hide NfStart;
    if m.kind == MsgStarting {
      StartPopped(s, i, m.info);
    }
  }

  lemma StartPopped(s: State, i: nat, h: nat)
    requires Safe(s, Msg(MsgStarting, h)) && i < MAX_NFS && s.nfs[i].scaleQ != []
    ensures Safe(Popped(s, i), Msg(MsgStarting, h)) && NfStart(s, h).nfs[i].scaleQ == s.nfs[i].scaleQ
    ensures NfStart(Popped(s, i), h) == Popped(NfStart(s, h), i)
  {
    hide NextUnused;
    assert ValidFlags(Popped(s, i)) == ValidFlags(s);
  }

  lemma {:induction false} DrainPopped(s: State, i: nat)
    requires Drainable(s) && Shape(s) && i < MAX_NFS && s.nfs[i].scaleQ != []
    ensures Shape(Drain(s)) && Drain(s).nfs[i].scaleQ == s.nfs[i].scaleQ
    ensures Drainable(Popped(s, i)) && Drain(Popped(s, i)) == Popped(Drain(s), i)
    decreases |s.ring|
  {
    hide Safe, Dispatch;
    if s.ring != [] {
      var t := HandleNext(s);
      DispatchPopped(s, i, s.ring[0]);
      DispatchShape(s, s.ring[0]);
      assert HandleNext(Popped(s, i)) == Popped(t, i);
      DrainPopped(t, i);
    }
  }

  lemma DispatchShape(s: State, m: Msg)
    requires Safe(s, m)
    ensures Shape(Dispatch(s, m)) && Dispatch(s, m).ring == s.ring
  {
  }

  /** One more message at the end of the ring is handled last. */
  lemma {:induction false} DrainAppended(s: State, m: Msg)
    requires Shape(s)
    ensures Drainable(s.(ring := s.ring + [m])) <==> Drainable(s) && Safe(Drain(s), m)
    ensures Drainable(s.(ring := s.ring + [m])) ==> Drain(s.(ring := s.ring + [m])) == Dispatch(Drain(s), m)
    decreases |s.ring|
  {
    hide Safe, Dispatch;
    var more := s.(ring := s.ring + [m]);
    if s.ring == [] {
      assert s.ring + [m] == [m];
      LastHandled(s, m);
    } else {
      var first, rest := s.ring[0], s.ring[1..];
      assert more.ring[0] == first && more.ring[1..] == rest + [m];
      if Safe(s, first) {
        DispatchLeavesRing(s, more.ring, first);
        DispatchShape(s, first);
        assert HandleNext(more) == HandleNext(s).(ring := rest + [m]);
        DrainAppended(HandleNext(s), m);
      } else {
        SafeIgnoresRing(s, more.ring, first);
      }
    }
  }

  lemma SafeIgnoresRing(s: State, r: seq<Msg>, m: Msg)
    ensures Safe(s.(ring := r), m) <==> Safe(s, m)
  {
  }

  lemma LastHandled(s: State, m: Msg)
    requires Shape(s) && s.ring == []
    ensures Drainable(s.(ring := [m])) <==> Safe(s, m)
    ensures Safe(s, m) ==> Drain(s.(ring := [m])) == Dispatch(s, m)
  {
    hide Safe, Dispatch;
    var more := s.(ring := [m]);
    assert more.ring[1..] == [] && more.(ring := []) == s;
    if Safe(s, m) {
      DispatchLeavesRing(s, [m], m);
      DispatchShape(s, m);
      assert HandleNext(more) == Dispatch(s, m);
    } else {
      SafeIgnoresRing(s, [m], m);
    }
  }

  /** Handling a block message a second time changes nothing. */
  lemma BlockTwice(s: State, h: nat)
    requires Safe(s, Msg(MsgBlocking, h))
    ensures Safe(NfBlock(s, h), Msg(MsgBlocking, h)) && NfBlock(NfBlock(s, h), h) == NfBlock(s, h)
  {
  }

  /** A second copy of a block message at the end of the ring changes nothing. */
  lemma BlockCopy(s: State, h: nat)
    requires Shape(s) && s.ring != [] && s.ring[|s.ring| - 1] == Msg(MsgBlocking, h) && Drainable(s)
    ensures var more := s.(ring := s.ring + [Msg(MsgBlocking, h)]);
            Drainable(more) && Drain(more) == Drain(s)
  {
    hide Safe, Dispatch, Drain, Drainable, NfBlock;
    var m, front := Msg(MsgBlocking, h), s.(ring := s.ring[..|s.ring| - 1]);
    assert front.ring + [m] == s.ring && s == front.(ring := front.ring + [m]);
    DrainAppended(front, m);
    DrainAppended(s, m);
    BlockIsDispatched(Drain(front), h);
    BlockTwice(Drain(front), h);
    BlockIsDispatched(Drain(s), h);
  }

  lemma BlockIsDispatched(s: State, h: nat)
    requires Safe(s, Msg(MsgBlocking, h))
    ensures Dispatch(s, Msg(MsgBlocking, h)) == NfBlock(s, h)
  {
  }

  // ---------- Repeated messages ----------

  /** Reading an inert message leaves, once the answers are handled, no trace but the shorter
      queue. */
  lemma InertHarmless(s: State, i: nat)
    requires Shape(s) && PointersOk(s) && Occupied(s, i) && s.nfs[i].scaleQ != [] && Drainable(s)
    requires Inert(s, i, s.nfs[i].scaleQ[0])
    ensures var t := ReadScaleMsg(s, i);
            Drainable(t) && Shape(Drain(s)) && Drain(s).nfs[i].scaleQ != [] && Drain(t) == Popped(Drain(s), i)
  {
    hide Drain, Drainable;
    var m, h := s.nfs[i].scaleQ[0], s.nfs[i].info.value;
    DrainPopped(s, i);
    if Answers(s, i, m) {
      var p := Popped(s, i);
      BlockCopy(p, h);
      assert ReadScaleMsg(s, i) == p.(ring := p.ring + [Msg(MsgBlocking, h)]);
    } else {
      assert ReadScaleMsg(s, i) == Popped(s, i);
    }
  }

  /** From any state, with any messages queued for the manager: when an instance reads its
      messages in one go, one that repeats an earlier one has no effect of its own. */
  lemma DuplicateHarmless(s: State, i: nat, a: nat, b: nat)
    requires Shape(s) && PointersOk(s) && Occupied(s, i) && a < b < |s.nfs[i].scaleQ|
    requires s.nfs[i].scaleQ[b] == s.nfs[i].scaleQ[a] && Drainable(Read(s, i, b))
    ensures var before, after := Read(s, i, b), Read(s, i, b + 1);
            Drainable(after) && Shape(Drain(before)) && Drain(before).nfs[i].scaleQ != [] &&
            Drain(after) == Popped(Drain(before), i)
  {
    hide Drain, Drainable, Inert, PointersOk;
    var before := Read(s, i, b);
    InertFrom(s, i, a, b);
    assert before.nfs[i].scaleQ[0] == s.nfs[i].scaleQ[b];
    InertHarmless(before, i);
  }

  // ---------- Waking a blocked instance ----------

  /** A blocked instance, or one that has been woken and has reported it. */
  predicate AsleepOrWoken(s: State, i: nat)
    requires Shape(s) && PointersOk(s) && Occupied(s, i)
  {
    var h := s.nfs[i].info.value;
    s.nfs[i].bkFlag == 2 &&
    ((s.infos[h].status == Blocked && s.ring == []) || (s.infos[h].status == Running && s.ring == [Msg(MsgRunning, h)]))
  }

  lemma {:induction false} StaysAsleepOrWoken(s: State, i: nat, k: nat)
    requires Shape(s) && PointersOk(s) && Occupied(s, i) && k <= |s.nfs[i].scaleQ| && AsleepOrWoken(s, i)
    ensures AsleepOrWoken(Read(s, i, k), i)
    decreases k
  {
    hide PointersOk;
    if k > 0 {
      StaysAsleepOrWoken(s, i, k - 1);
      OneMoreRead(Read(s, i, k - 1), i);
    }
  }

  lemma OneMoreRead(s: State, i: nat)
    requires Shape(s) && PointersOk(s) && Occupied(s, i) && s.nfs[i].scaleQ != [] && AsleepOrWoken(s, i)
    ensures var t := ReadScaleMsg(s, i);
            Shape(t) && PointersOk(t) && Occupied(t, i) && AsleepOrWoken(t, i) &&
            (s.nfs[i].scaleQ[0].sig == ScaleRun && s.nfs[i].scaleQ[0].instId == s.nfs[i].instId ==>
               t.infos[t.nfs[i].info.value].status == Running)
  {
  }

  /** A blocked instance that has a run message at the end of its queue runs again, and has
      reported it once, when it has read its queue. */
  lemma WakesUp(s: State, i: nat)
    requires Shape(s) && PointersOk(s) && Occupied(s, i) && s.ring == []
    requires s.nfs[i].bkFlag == 2 && s.infos[s.nfs[i].info.value].status == Blocked
    requires s.nfs[i].scaleQ != [] && s.nfs[i].scaleQ[|s.nfs[i].scaleQ| - 1] == ScaleMsg(ScaleRun, s.nfs[i].instId, 0)
    ensures var t, h := Read(s, i, |s.nfs[i].scaleQ|), s.nfs[i].info.value;
            t.infos[h].status == Running && t.ring == [Msg(MsgRunning, h)] && t.nfs[i].scaleQ == []
  {
    hide PointersOk;
    var last := |s.nfs[i].scaleQ| - 1;
    StaysAsleepOrWoken(s, i, last);
    var t := Read(s, i, last);
    assert t.nfs[i].scaleQ[0] == s.nfs[i].scaleQ[last];
    OneMoreRead(t, i);
  }

  // ---------- Repeated messages in any run ----------

  /** The instance in slot i, if there is one, is not asked to block and is not blocked. */
  ghost predicate Awake(s: State, i: nat) {
    Shape(s) && PointersOk(s) && i < MAX_NFS && s.nfs[i].bkFlag != 1 &&
    (Occupied(s, i) ==> s.infos[s.nfs[i].info.value].status != Blocked)
  }

  ghost predicate Lowered(s: State, i: nat) {
    Shape(s) && i < MAX_NFS && s.nfs[i].bkFlag != 1
  }

  lemma HandleLowered(s: State, i: nat)
    requires s.ring != [] && Safe(s, s.ring[0]) && Lowered(s, i)
    ensures Lowered(HandleNext(s), i)
  {
    hide NextUnused, ValidFlags, RemoveFromRow;
  }

  /** Only the scale thread asks an instance to block. */
  lemma StepLowered(s: State, e: Event, t: State, i: nat)
    requires CanStep(s, e, t) && Lowered(s, i) && e != RaiseBlock(i)
    ensures Lowered(t, i)
  {
    hide HandleNext, Safe;
    if e.Handle? {
      HandleLowered(s, i);
    }
  }

  lemma HandleAwake(s: State, i: nat)
    requires Inv(s) && s.ring != [] && Safe(s, s.ring[0]) && Awake(s, i)
    ensures PointersOk(HandleNext(s)) && Awake(HandleNext(s), i)
  {
    hide Inv, NfStart;
    assert Linked(s) by { InvParts(s); }
    if s.ring[0].kind == MsgStarting {
      StartAwake(s, s.ring[0].info, i);
    } else {
      OtherAwake(s, i);
    }
  }

  lemma OtherAwake(s: State, i: nat)
    requires Shape(s) && Linked(s) && s.ring != [] && Safe(s, s.ring[0]) && s.ring[0].kind != MsgStarting && Awake(s, i)
    ensures PointersOk(HandleNext(s)) && Awake(HandleNext(s), i)
  {
    hide RemoveFromRow, PutInRow, Inc, Dec;
  }

  lemma StartAwake(s: State, h: nat, i: nat)
    requires Safe(s, Msg(MsgStarting, h)) && Awake(s, i)
    ensures PointersOk(NfStart(s, h)) && Awake(NfStart(s, h), i)
  {
    hide NextUnused, ValidFlags;
  }

  /** An instance that is not asked to block does not block. */
  lemma StepAwake(s: State, e: Event, t: State, i: nat)
    requires Inv(s) && CanStep(s, e, t) && Awake(s, i) && e != RaiseBlock(i)
    ensures Awake(t, i)
  {
    hide HandleNext, Safe, Counters, Local;
    if e.Handle? {
      HandleAwake(s, i);
    }
  }

  /** In any run, whatever else happens in between: when an instance has answered a run message,
      it answers no message at all until its block flag is raised again. */
  lemma {:induction false} WokenOnce(states: seq<State>, events: seq<Event>, i: nat, a: nat, b: nat)
    requires IsRun(states, events) && a < b < |states| && events[a] == Poll(i)
    requires CanStep(states[a], Poll(i), states[a + 1]) && Answers(states[a], i, states[a].nfs[i].scaleQ[0])
    requires states[a].nfs[i].scaleQ[0].sig == ScaleRun
    requires forall k :: a < k < b ==> events[k] != RaiseBlock(i)
    ensures Awake(states[b], i) && (Occupied(states[b], i) ==> forall m :: !Answers(states[b], i, m))
    decreases b
  {
    hide Inv, Enabled, Apply, Initial;
    if b == a + 1 {
      AnsweredRun(states[a], states[b], i);
    } else {
      WokenOnce(states, events, i, a, b - 1);
      RunKeepsInv(states, events, b - 1);
      assert CanStep(states[b - 1], events[b - 1], states[b]);
      StepAwake(states[b - 1], events[b - 1], states[b], i);
    }
  }

  lemma AnsweredRun(s: State, t: State, i: nat)
    requires CanStep(s, Poll(i), t) && Answers(s, i, s.nfs[i].scaleQ[0]) && s.nfs[i].scaleQ[0].sig == ScaleRun
    ensures Awake(t, i)
  {
  }

  /** In any run: when the manager has taken an instance's block flag off 1, no block message is
      answered until the flag is raised again. */
  lemma {:induction false} BlockedOnce(states: seq<State>, events: seq<Event>, i: nat, a: nat, b: nat)
    requires IsRun(states, events) && a <= b < |states| && Lowered(states[a], i)
    requires forall k :: a <= k < b ==> events[k] != RaiseBlock(i)
    ensures Lowered(states[b], i) && PointersOk(states[b])
    ensures Occupied(states[b], i) ==> forall m: ScaleMsg :: m.sig == ScaleBlock ==> !Answers(states[b], i, m)
    decreases b
  {
    hide Inv, Enabled, Apply, Initial;
    RunKeepsInv(states, events, b);
    InvParts(states[b]);
    if a < b {
      BlockedOnce(states, events, i, a, b - 1);
      assert CanStep(states[b - 1], events[b - 1], states[b]);
      StepLowered(states[b - 1], events[b - 1], states[b], i);
    }
  }
}

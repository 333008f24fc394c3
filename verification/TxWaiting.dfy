/**
 * A send taken as one piece, waits included, is one way to run the steps of the protocol: the sender's own,
 * and those of the device and the interrupt that end its waits.
 */
module TxWaiting {
  import opened Common
  import opened Wire
  import opened TxMachine
  import TxSafety
  import TxTheorems

  // ----- the phases of a wait -----

  /** Nothing to hand out. */
  predicate Empty(p: Pool) {
    p.lastSbuf >= |p.sbufs| && p.used == []
  }

  function At(s: State, t: nat, p: Pool, sendq: set<nat>, pc: Pc): State
    requires t < |s.pcs|
  {
    s.(p := p, sendq := sendq, pcs := s.pcs[t := pc])
  }

  lemma AtTwice(s: State, t: nat, p: Pool, q: set<nat>, pc: Pc, p': Pool, q': set<nat>, pc': Pc)
    requires t < |s.pcs|
    ensures At(At(s, t, p, q, pc), t, p', q', pc') == At(s, t, p', q', pc')
  {
    assert s.pcs[t := pc][t := pc'] == s.pcs[t := pc'];
  }

  lemma UprefEmpty(p: Pool)
    requires Empty(p)
    ensures Empty(UprefSleepers(p))
  {
  }

  lemma UprefEffect(s: State, t: nat)
    requires t < |s.pcs| && s.pcs[t].LoopTop?
    ensures Step(s, Upref(t)) == At(s, t, UprefSleepers(s.p), s.sendq, FastCheck(s.pcs[t].req))
  {
  }

  lemma FastTryFails(s: State, t: nat)
    requires t < |s.pcs| && s.pcs[t].FastCheck? && Empty(s.p)
    ensures Step(s, FastTry(t)) == At(s, t, s.p, s.sendq, Join(s.pcs[t].req, false))
  {
  }

  lemma JoinEffect(s: State, t: nat)
    requires t < |s.pcs| && s.pcs[t].Join?
    ensures var signal := t in s.signals;
            Step(s, JoinQueue(t)) ==
            At(s, t, s.p, if signal then s.sendq - {t} else s.sendq + {t},
               Check(s.pcs[t].req, s.pcs[t].expired, signal))
  {
  }

  lemma TryFails(s: State, t: nat)
    requires t < |s.pcs| && s.pcs[t].Check? && Empty(s.p)
    ensures var pc := s.pcs[t];
            Step(s, Try(t)) ==
            At(s, t, s.p, s.sendq, if pc.expired then Finish(pc.req, None, true)
                                   else if pc.signalled then Finish(pc.req, None, false) else Sched(pc.req))
  {
  }

  lemma LeaveEffect(s: State, t: nat, cause: Cause)
    requires t < |s.pcs| && s.pcs[t].Sched? && (cause.Signal? ==> t in s.signals)
    ensures Step(s, Leave(t, cause)) == At(s, t, s.p, s.sendq, Join(s.pcs[t].req, cause.Timer?))
  {
  }

  lemma TryTakes(s: State, t: nat)
    requires t < |s.pcs| && s.pcs[t].Check? && GetTxBuf(s.p).1.Some?
    ensures var s' := Step(s, Try(t));
            s'.p == GetTxBuf(s.p).0 && s'.pcs == s.pcs[t := Finish(s.pcs[t].req, GetTxBuf(s.p).1, false)]
  {
    hide GetTxBuf;
  }

  lemma FinishEffect(s: State, t: nat)
    requires t < |s.pcs| && s.pcs[t].Finish?
    ensures var pc := s.pcs[t];
            Step(s, FinishWait(t)) == At(s, t, s.p, s.sendq - {t}, Down(pc.req, pc.got, pc.timedOut))
  {
  }

  lemma DownEffect(s: State, t: nat)
    requires t < |s.pcs| && s.pcs[t].Down?
    ensures var pc := s.pcs[t];
            Step(s, Downref(t)) ==
            At(s, t, DownrefSleepers(s.p), s.sendq,
               if pc.timeout then Out(ERESTARTSYS)
               else if pc.msg.Some? then Hold(pc.req, pc.msg.value) else LoopTop(pc.req))
  {
  }

  /** From having no buffer to the check that follows joining the wait queue, or being kept off it by a signal. */
  function Joins(t: nat): seq<Action> {
    [Upref(t), FastTry(t), JoinQueue(t), Try(t)]
  }

  lemma JoinsEffect(s: State, t: nat)
    requires t < |s.pcs| && s.pcs[t].LoopTop? && Empty(s.p)
    ensures var r, signal := s.pcs[t].req, t in s.signals;
            Run(s, Joins(t)) ==
            At(s, t, UprefSleepers(s.p), if signal then s.sendq - {t} else s.sendq + {t},
               if signal then Finish(r, None, false) else Sched(r))
  {
    hide Step, Run, UprefSleepers;
    var r, p, signal := s.pcs[t].req, UprefSleepers(s.p), t in s.signals;
    var q := if signal then s.sendq - {t} else s.sendq + {t};
    var s1, s2 := At(s, t, p, s.sendq, FastCheck(r)), At(s, t, p, s.sendq, Join(r, false));
    var s3 := At(s, t, p, q, Check(r, false, signal));
    var s4 := At(s, t, p, q, if signal then Finish(r, None, false) else Sched(r));
    UprefEmpty(s.p);
    UprefEffect(s, t);
    FastTryFails(s1, t);
    AtTwice(s, t, p, s.sendq, s1.pcs[t], p, s.sendq, s2.pcs[t]);
    JoinEffect(s2, t);
    AtTwice(s, t, p, s.sendq, s2.pcs[t], p, q, s3.pcs[t]);
    TryFails(s3, t);
    AtTwice(s, t, p, q, s3.pcs[t], p, q, s4.pcs[t]);
    hide At;
    RunThrough(Joins(t), [s, s1, s2, s3, s4]);
  }

  /** The timer, or a pending signal, ends the sleep: one more check, and the wait is over. */
  function Ends(t: nat, cause: Cause): seq<Action> {
    [Leave(t, cause), JoinQueue(t), Try(t)]
  }

  lemma EndsEffect(s: State, t: nat, cause: Cause)
    requires t < |s.pcs| && s.pcs[t].Sched? && Empty(s.p)
    requires (cause.Timer? && t !in s.signals) || (cause.Signal? && t in s.signals)
    ensures var q := if cause.Timer? then s.sendq + {t} else s.sendq - {t};
            Run(s, Ends(t, cause)) == At(s, t, s.p, q, Finish(s.pcs[t].req, None, cause.Timer?))
  {
    hide Run, Step;
    var r, e := s.pcs[t].req, cause.Timer?;
    var q := if e then s.sendq + {t} else s.sendq - {t};
    var s1, s2 := At(s, t, s.p, s.sendq, Join(r, e)), At(s, t, s.p, q, Check(r, e, !e));
    var s3 := At(s, t, s.p, q, Finish(r, None, e));
    LeaveEffect(s, t, cause);
    JoinEffect(s1, t);
    AtTwice(s, t, s.p, s.sendq, s1.pcs[t], s.p, q, s2.pcs[t]);
    TryFails(s2, t);
    AtTwice(s, t, s.p, q, s2.pcs[t], s.p, q, s3.pcs[t]);
    hide At;
    RunThrough(Ends(t, cause), [s, s1, s2, s3]);
  }

  /** The device returns a buffer and the interrupt wakes everybody. */
  function Returns(slot: nat): seq<Action> {
    [DevDone(slot), DevNotify, TxIrq(false)]
  }

  lemma DoneEffect(s: State, slot: nat)
    requires slot in s.p.inDev
    ensures var s' := Step(s, DevDone(slot));
            && s'.p == s.p.(inDev := s.p.inDev - {slot}, used := s.p.used + [slot])
            && s'.pcs == s.pcs && s'.owed
  {
  }

  lemma InterruptEffect(s: State)
    requires s.owed && s.p.cbOn
    ensures Step(Step(s, DevNotify), TxIrq(false)) == s.(owed := false, pending := false, sendq := {})
  {
  }

  lemma ReturnsEffect(s: State, slot: nat)
    requires slot in s.p.inDev && s.p.cbOn
    ensures var s' := Run(s, Returns(slot));
            s'.p == s.p.(inDev := s.p.inDev - {slot}, used := s.p.used + [slot]) && s'.pcs == s.pcs && s'.sendq == {}
  {
    hide Run, Step;
    DoneEffect(s, slot);
    var s1 := Step(s, DevDone(slot));
    InterruptEffect(s1);
    var s2 := Step(s1, DevNotify);
    RunThrough(Returns(slot), [s, s1, s2, Step(s2, TxIrq(false))]);
  }

  /** Woken, the sender tries again. */
  function Resumes(t: nat): seq<Action> {
    [Leave(t, Ready), JoinQueue(t), Try(t)]
  }

  lemma ResumesEffect(s: State, t: nat)
    requires t < |s.pcs| && s.pcs[t].Sched? && GetTxBuf(s.p).1.Some?
    ensures var s' := Run(s, Resumes(t));
            && s'.p == GetTxBuf(s.p).0
            && s'.pcs == s.pcs[t := Finish(s.pcs[t].req, GetTxBuf(s.p).1, false)]
  {
    hide Run, Step, GetTxBuf;
    var r, signal := s.pcs[t].req, t in s.signals;
    var q := if signal then s.sendq - {t} else s.sendq + {t};
    var s1, s2 := At(s, t, s.p, s.sendq, Join(r, false)), At(s, t, s.p, q, Check(r, false, signal));
    LeaveEffect(s, t, Ready);
    JoinEffect(s1, t);
    AtTwice(s, t, s.p, s.sendq, s1.pcs[t], s.p, q, s2.pcs[t]);
    TryTakes(s2, t);
    var s3 := Step(s2, Try(t));
    assert s2.pcs[t := s3.pcs[t]] == s.pcs[t := s3.pcs[t]];
    hide At;
    RunThrough(Resumes(t), [s, s1, s2, s3]);
  }

  /** With a signal pending the sender does not sleep; a buffer returned before its second check is still taken. */
  function Snatches(t: nat, slot: nat): seq<Action> {
    [Upref(t), FastTry(t), DevDone(slot), JoinQueue(t), Try(t)]
  }

  lemma SnatchesEffect(s: State, t: nat, slot: nat)
    requires t < |s.pcs| && s.pcs[t].LoopTop? && Empty(s.p) && slot in s.p.inDev
    ensures var s', p := Run(s, Snatches(t, slot)), UprefSleepers(s.p);
            && s'.p == p.(inDev := p.inDev - {slot}, numFree := p.numFree + 1)
            && s'.pcs == s.pcs[t := Finish(s.pcs[t].req, Some(slot), false)]
  {
    hide Run, Step;
    var r, p, signal := s.pcs[t].req, UprefSleepers(s.p), t in s.signals;
    var s1, s2 := At(s, t, p, s.sendq, FastCheck(r)), At(s, t, p, s.sendq, Join(r, false));
    UprefEffect(s, t);
    FastTryFails(s1, t);
    AtTwice(s, t, p, s.sendq, s1.pcs[t], p, s.sendq, s2.pcs[t]);
    DoneEffect(s2, slot);
    var s3 := Step(s2, DevDone(slot));
    JoinEffect(s3, t);
    var s4 := Step(s3, JoinQueue(t));
    assert s4.p.used == [slot] && [slot][1..] == [];
    TryTakes(s4, t);
    var s5 := Step(s4, Try(t));
    assert s4.pcs[t := s5.pcs[t]] == s.pcs[t := s5.pcs[t]];
    RunThrough(Snatches(t, slot), [s, s1, s2, s3, s4, s5]);
  }

  function Closes(t: nat): seq<Action> {
    [FinishWait(t), Downref(t)]
  }

  lemma ClosesEffect(s: State, t: nat)
    requires t < |s.pcs| && s.pcs[t].Finish?
    ensures var pc := s.pcs[t];
            Run(s, Closes(t)) ==
            At(s, t, DownrefSleepers(s.p), s.sendq - {t},
               if pc.timedOut then Out(ERESTARTSYS)
               else if pc.got.Some? then Hold(pc.req, pc.got.value) else LoopTop(pc.req))
  {
    hide Run, Step, DownrefSleepers;
    var pc := s.pcs[t];
    var s1 := At(s, t, s.p, s.sendq - {t}, Down(pc.req, pc.got, pc.timedOut));
    FinishEffect(s, t);
    DownEffect(s1, t);
    var s2 := Step(s1, Downref(t));
    AtTwice(s, t, s.p, s.sendq - {t}, s1.pcs[t], s2.p, s.sendq - {t}, s2.pcs[t]);
    hide At;
    RunThrough(Closes(t), [s, s1, s2]);
  }

  // ----- one wait -----

  /** A signal arrives while the sender sleeps. */
  function Signals(t: nat): seq<Action> {
    [RaiseSignal(t)] + Ends(t, Signal)
  }

  lemma SignalsEffect(s: State, t: nat)
    requires t < |s.pcs| && s.pcs[t].Sched? && Empty(s.p)
    ensures Run(s, Signals(t)) ==
            At(s.(signals := s.signals + {t}), t, s.p, s.sendq - {t}, Finish(s.pcs[t].req, None, false))
  {
    hide Run, Ends;
    var s1 := s.(signals := s.signals + {t});
    assert Step(s, RaiseSignal(t)) == s1;
    hide Step;
    RunThrough([RaiseSignal(t)], [s, s1]);
    RunAppend(s, [RaiseSignal(t)], Ends(t, Signal));
    EndsEffect(s1, t, Signal);
  }

  function RoundActs(t: nat, pending: bool, round: Round): seq<Action> {
    if pending then
      if round.Returned? then Snatches(t, round.slot) + Closes(t) else Joins(t) + Closes(t)
    else
      match round
      case Signalled => Joins(t) + (Signals(t) + Closes(t))
      case Expired => Joins(t) + (Ends(t, Timer) + Closes(t))
      case Returned(slot) => Joins(t) + (Returns(slot) + (Resumes(t) + Closes(t)))
  }

  /** Counted as a sleeper and back: nothing has changed. */
  lemma UpDown(p: Pool)
    requires p.sleepers >= 0 && (p.cbOn <==> p.sleepers > 0)
    ensures DownrefSleepers(UprefSleepers(p)) == p && UprefSleepers(p).cbOn
  {
  }

  /** The conditions under which a sender that found no buffer waits. */
  predicate Waits(s: State, t: nat) {
    && t < |s.pcs| && s.pcs[t].LoopTop? && Empty(s.p)
    && s.p.sleepers >= 0 && (s.p.cbOn <==> s.p.sleepers > 0)
  }

  lemma SignalledEffect(s: State, t: nat)
    requires Waits(s, t) && t !in s.signals
    ensures Run(s, RoundActs(t, false, Signalled)) == s.(sendq := s.sendq - {t}, signals := s.signals + {t})
  {
    hide Run, Joins, Signals, Closes;
    var p, r := UprefSleepers(s.p), s.pcs[t].req;
    var s1 := At(s, t, p, s.sendq + {t}, Sched(r));
    JoinsEffect(s, t);
    SignalsEffect(s1, t);
    var s2 := At(s1.(signals := s.signals + {t}), t, p, s1.sendq - {t}, Finish(r, None, false));
    ClosesEffect(s2, t);
    UpDown(s.p);
    RunAppend(s, Joins(t), Signals(t) + Closes(t));
    RunAppend(s1, Signals(t), Closes(t));
    assert s2.sendq - {t} == s.sendq - {t};
    assert s2.pcs[t := LoopTop(r)] == s.pcs;
  }

  lemma PendingEffect(s: State, t: nat, round: Round)
    requires Waits(s, t) && t in s.signals && !round.Returned?
    ensures Run(s, RoundActs(t, true, round)) == s.(sendq := s.sendq - {t})
  {
    hide Run;
    var s1 := At(s, t, UprefSleepers(s.p), s.sendq - {t}, Finish(s.pcs[t].req, None, false));
    JoinsEffect(s, t);
    ClosesEffect(s1, t);
    UpDown(s.p);
    RunAppend(s, Joins(t), Closes(t));
    assert s.sendq - {t} - {t} == s.sendq - {t};
    assert s1.pcs[t := LoopTop(s.pcs[t].req)] == s.pcs;
  }

  lemma SnatchedEffect(s: State, t: nat, slot: nat)
    requires Waits(s, t) && t in s.signals && slot in s.p.inDev
    ensures var s' := Run(s, RoundActs(t, true, Returned(slot)));
            && s'.p == s.p.(inDev := s.p.inDev - {slot}, numFree := s.p.numFree + 1)
            && s'.pcs[t] == Hold(s.pcs[t].req, slot)
  {
    hide Run, Step, Snatches, Closes;
    SnatchesEffect(s, t, slot);
    var s1 := Run(s, Snatches(t, slot));
    ClosesEffect(s1, t);
    UpDown(s.p);
    RunAppend(s, Snatches(t, slot), Closes(t));
  }

  lemma ExpiredEffect(s: State, t: nat)
    requires Waits(s, t) && t !in s.signals
    ensures var s' := Run(s, RoundActs(t, false, Expired)); s'.p == s.p && s'.pcs[t] == Out(ERESTARTSYS)
  {
    hide Run;
    var p, r := UprefSleepers(s.p), s.pcs[t].req;
    var s1 := At(s, t, p, s.sendq + {t}, Sched(r));
    JoinsEffect(s, t);
    EndsEffect(s1, t, Timer);
    ClosesEffect(At(s1, t, p, s1.sendq + {t}, Finish(r, None, true)), t);
    UpDown(s.p);
    RunAppend(s, Joins(t), Ends(t, Timer) + Closes(t));
    RunAppend(s1, Ends(t, Timer), Closes(t));
  }

  lemma ReturnedEffect(s: State, t: nat, slot: nat)
    requires Waits(s, t) && t !in s.signals && slot in s.p.inDev
    ensures var s' := Run(s, RoundActs(t, false, Returned(slot)));
            && s'.p == s.p.(inDev := s.p.inDev - {slot}, numFree := s.p.numFree + 1)
            && s'.pcs[t] == Hold(s.pcs[t].req, slot)
  {
    hide Run, Step;
    var s1 := At(s, t, UprefSleepers(s.p), s.sendq + {t}, Sched(s.pcs[t].req));
    JoinsEffect(s, t);
    UpDown(s.p);
    ReturnsEffect(s1, slot);
    var s2 := Run(s1, Returns(slot));
    assert s2.p.used == [slot] && [slot][1..] == [];
    assert GetTxBuf(s2.p) == (s1.p.(inDev := s.p.inDev - {slot}, numFree := s.p.numFree + 1), Some(slot));
    ResumesEffect(s2, t);
    ClosesEffect(Run(s2, Resumes(t)), t);
    RunAppend(s, Joins(t), Returns(slot) + (Resumes(t) + Closes(t)));
    RunAppend(s1, Returns(slot), Resumes(t) + Closes(t));
    RunAppend(s2, Resumes(t), Closes(t));
  }

  // ----- filling and queueing -----

  function Queues(t: nat, ioErr: bool): seq<Action> {
    [PutHeader(t), PutPayload(t), Queue(t, ioErr)]
  }

  lemma QueueSteps(s: State, t: nat, r: Req, i: nat, ioErr: bool)
    requires t < |s.pcs| && s.pcs[t] == Hold(r, i) && Writable(s, i, r)
    ensures var s' := Step(Step(Step(s, PutHeader(t)), PutPayload(t)), Queue(t, ioErr));
            (s'.p, s'.pcs[t]) == (Transmit(s.p, i, r, ioErr).0, Out(Transmit(s.p, i, r, ioErr).1))
  {
    hide DoEnter, DoGrab, DoFastTry, DoJoin, DoTry, DoLeave, DoDownref, DoDevTake, DoDevDone, Frame, Encode, HeaderOf;
    var s1 := Step(s, PutHeader(t));
    assert s1.pcs[t] == HdrDone(r, i) && s1.p == WriteHeader(s.p, i, r) && Writable(s1, i, r);
    var s2 := Step(s1, PutPayload(t));
    assert s2.pcs[t] == Filled(r, i) && s2.p == WritePayload(s1.p, i, r);
  }

  lemma QueuesEffect(s: State, t: nat, r: Req, i: nat, ioErr: bool)
    requires t < |s.pcs| && s.pcs[t] == Hold(r, i) && Writable(s, i, r)
    ensures var s' := Run(s, Queues(t, ioErr));
            (s'.p, s'.pcs[t]) == (Transmit(s.p, i, r, ioErr).0, Out(Transmit(s.p, i, r, ioErr).1))
  {
    hide Step, Run, Transmit;
    QueueSteps(s, t, r, i, ioErr);
    var s1 := Step(s, PutHeader(t));
    var s2 := Step(s1, PutPayload(t));
    RunThrough(Queues(t, ioErr), [s, s1, s2, Step(s2, Queue(t, ioErr))]);
  }

  // ----- all waits -----

  /** What follows a first try without a buffer. */
  function WaitActs(t: nat, pending: bool, rounds: seq<Round>, ioErr: bool): seq<Action>
    decreases |rounds|
  {
    if rounds == [] then []
    else if rounds[0].Returned? then RoundActs(t, pending, rounds[0]) + Queues(t, ioErr)
    else if TimesOut(pending, rounds) then RoundActs(t, pending, rounds[0])
    else RoundActs(t, pending, rounds[0]) + WaitActs(t, true, rounds[1..], ioErr)
  }

  lemma RunNothing(s: State)
    ensures Run(s, []) == s
  {
  }

  /** The pc of a sender whose send returned, or goes on. */
  function Outcome(r: Req, ret: Option<int>): Pc {
    if ret.Some? then Out(ret.value) else LoopTop(r)
  }

  /** The slots an account mentions are with the device. */
  predicate AtDevice(p: Pool, rounds: seq<Round>) {
    forall i :: 0 <= i < |rounds| && rounds[i].Returned? ==> rounds[i].slot < |p.sbufs| && rounds[i].slot in p.inDev
  }

  lemma DecidesAtOnce(s: State, t: nat, rounds: seq<Round>, ioErr: bool)
    requires Waits(s, t) && rounds != [] && rounds[0].Returned? && AtDevice(s.p, rounds)
    requires forall i :: 0 <= i < |s.p.sbufs| ==> |s.p.sbufs[i]| == BUF_SIZE
    requires HDR_SIZE + |s.pcs[t].req.data| <= BUF_SIZE
    ensures var pending, r := t in s.signals, s.pcs[t].req;
            var s' := Run(s, RoundActs(t, pending, rounds[0]) + Queues(t, ioErr));
            var (p, ret) := SendWaiting(s.p, r, pending, rounds, ioErr);
            (s'.p, s'.pcs[t]) == (p, Outcome(r, ret))
  {
    hide RoundActs, Queues, Transmit, Step, Run;
    var pending, r, slot := t in s.signals, s.pcs[t].req, rounds[0].slot;
    if pending { SnatchedEffect(s, t, slot); } else { ReturnedEffect(s, t, slot); }
    var s1 := Run(s, RoundActs(t, pending, rounds[0]));
    RunAppend(s, RoundActs(t, pending, rounds[0]), Queues(t, ioErr));
    QueuesEffect(s1, t, r, slot, ioErr);
  }

  /** Waiting is what the protocol's steps do, for every account of what happens during the waits. */
  lemma {:induction false} WaitingIsARun(s: State, t: nat, rounds: seq<Round>, ioErr: bool)
    requires Waits(s, t) && AtDevice(s.p, rounds)
    requires forall i :: 0 <= i < |s.p.sbufs| ==> |s.p.sbufs[i]| == BUF_SIZE
    requires HDR_SIZE + |s.pcs[t].req.data| <= BUF_SIZE
    ensures var pending, r := t in s.signals, s.pcs[t].req;
            var s' := Run(s, WaitActs(t, pending, rounds, ioErr));
            var (p, ret) := SendWaiting(s.p, r, pending, rounds, ioErr);
            (s'.p, s'.pcs[t]) == (p, Outcome(r, ret))
    decreases |rounds|
  {
    hide RoundActs, Queues, Transmit, Step, Run;
    var pending := t in s.signals;
    if rounds == [] {
      RunNothing(s);
    } else if rounds[0].Returned? {
      DecidesAtOnce(s, t, rounds, ioErr);
    } else if TimesOut(pending, rounds) {
      ExpiredEffect(s, t);
    } else {
      assert FirstReturn(rounds) == 1 + FirstReturn(rounds[1..]);
      var s1 := s.(sendq := s.sendq - {t}, signals := s.signals + {t});
      if pending {
        PendingEffect(s, t, rounds[0]);
        assert s.signals + {t} == s.signals;
      } else {
        SignalledEffect(s, t);
      }
      RunAppend(s, RoundActs(t, pending, rounds[0]), WaitActs(t, true, rounds[1..], ioErr));
      WaitingIsARun(s1, t, rounds[1..], ioErr);
    }
  }

  // ----- the whole send -----

  function FirstSteps(t: nat, r: Req, len: i32, wait: bool): seq<Action> {
    [Enter(t, r.src, r.dst, r.data, len, wait), Grab(t)]
  }

  lemma FirstEffect(s: State, t: nat, r: Req, len: i32, wait: bool)
    requires t < |s.pcs| && s.pcs[t].Out? && SendCheck(r.src, r.dst, len) == 0 && |r.data| == len
    ensures var s', (p, m) := Run(s, FirstSteps(t, r, len, wait)), GetTxBuf(s.p);
            && s'.p == p && |s'.pcs| == |s.pcs| && s'.signals == s.signals
            && s'.pcs[t] == if m.Some? then Hold(r, m.value) else if wait then LoopTop(r) else Out(ENOMEM)
  {
    hide Run;
    var s1 := Goto(s, t, First(r, wait));
    assert Step(s, Enter(t, r.src, r.dst, r.data, len, wait)) == s1;
    assert Step(s1, Grab(t)) == DoGrab(s1, t);
    var s2 := DoGrab(s1, t);
    hide Step;
    RunThrough(FirstSteps(t, r, len, wait), [s, s1, s2]);
  }

  /** The steps of a send: refused, sent at once, turned away, or waiting. */
  function SendActs(p: Pool, t: nat, r: Req, len: i32, wait: bool, pending: bool, rounds: seq<Round>, ioErr: bool)
    : seq<Action>
  {
    if SendCheck(r.src, r.dst, len) != 0 then [Enter(t, r.src, r.dst, r.data, len, wait)]
    else FirstSteps(t, r, len, wait) +
         (if GetTxBuf(p).1.Some? then Queues(t, ioErr) else if wait then WaitActs(t, pending, rounds, ioErr) else [])
  }

  lemma RefusedEffect(s: State, t: nat, r: Req, len: i32, wait: bool)
    requires t < |s.pcs| && s.pcs[t].Out? && SendCheck(r.src, r.dst, len) != 0
    ensures Run(s, [Enter(t, r.src, r.dst, r.data, len, wait)]) == Goto(s, t, Out(SendCheck(r.src, r.dst, len)))
  {
    var a, s1 := Enter(t, r.src, r.dst, r.data, len, wait), Goto(s, t, Out(SendCheck(r.src, r.dst, len)));
    assert Step(s, a) == s1;
    hide Step, Run;
    RunThrough([a], [s, s1]);
  }

  /**
   * The one-piece send is a run of the protocol that ends with the same pool and the same return value,
   * for every account of what happens during its waits.
   */
  lemma SendIsARun(s: State, t: nat, r: Req, len: i32, wait: bool, rounds: seq<Round>, ioErr: bool)
    requires t < |s.pcs| && s.pcs[t].Out? && s.p.sleepers >= 0 && (s.p.cbOn <==> s.p.sleepers > 0)
    requires forall i :: 0 <= i < |s.p.sbufs| ==> |s.p.sbufs[i]| == BUF_SIZE
    requires forall j :: 0 <= j < |s.p.used| ==> s.p.used[j] < |s.p.sbufs|
    requires AtDevice(s.p, rounds)
    requires SendCheck(r.src, r.dst, len) == 0 ==> |r.data| == len
    ensures var pending := t in s.signals;
            var s' := Run(s, SendActs(s.p, t, r, len, wait, pending, rounds, ioErr));
            var (p, ret) := TxMachine.Send(s.p, r, len, wait, pending, rounds, ioErr);
            (s'.p, s'.pcs[t]) == (p, Outcome(r, ret))
  {
    hide Run, Step, Transmit, WaitActs, SendWaiting, Queues, FirstSteps;
    if SendCheck(r.src, r.dst, len) != 0 {
      RefusedEffect(s, t, r, len, wait);
    } else {
      FirstEffect(s, t, r, len, wait);
      var s1 := Run(s, FirstSteps(t, r, len, wait));
      if GetTxBuf(s.p).1.Some? {
        RunAppend(s, FirstSteps(t, r, len, wait), Queues(t, ioErr));
        QueuesEffect(s1, t, r, GetTxBuf(s.p).1.value, ioErr);
      } else if wait {
        assert AtDevice(s1.p, rounds);
        RunAppend(s, FirstSteps(t, r, len, wait), WaitActs(t, t in s.signals, rounds, ioErr));
        WaitingIsARun(s1, t, rounds, ioErr);
      } else {
        assert FirstSteps(t, r, len, wait) + [] == FirstSteps(t, r, len, wait);
      }
    }
  }

  /** The buffer a send gets: one never used, or the oldest returned, or the first returned while it waits. */
  function Gets(p: Pool, wait: bool, pending: bool, rounds: seq<Round>): Option<nat> {
    if p.lastSbuf < |p.sbufs| then Some(p.lastSbuf)
    else if p.used != [] then Some(p.used[0])
    else
      var k := FirstReturn(rounds);
      if wait && k < |rounds| && (pending || !rounds[0].Expired?) then Some(rounds[k].slot) else None
  }

  /** Header and payload together are the frame, and what follows it stays. */
  lemma WrittenFrame(p: Pool, slot: nat, r: Req)
    requires slot < |p.sbufs| && |p.sbufs[slot]| == BUF_SIZE && HDR_SIZE + |r.data| <= BUF_SIZE
    ensures WritePayload(WriteHeader(p, slot, r), slot, r) ==
            p.(sbufs := p.sbufs[slot := Frame(r) + p.sbufs[slot][16 + |r.data|..]])
  {
    hide Encode, HeaderOf;
    var b := p.sbufs[slot];
    var h := Encode(HeaderOf(r)) + b[HDR_SIZE..];
    assert h[..HDR_SIZE] == Encode(HeaderOf(r)) && h[HDR_SIZE + |r.data|..] == b[16 + |r.data|..];
    assert h[..HDR_SIZE] + r.data + h[HDR_SIZE + |r.data|..] == Frame(r) + b[16 + |r.data|..];
    assert p.sbufs[slot := h][slot := Frame(r) + b[16 + |r.data|..]] == p.sbufs[slot := Frame(r) + b[16 + |r.data|..]];
  }

  /** The frame is written whatever happens; it is queued unless an error is reported or no descriptor is free. */
  lemma TransmitExact(p: Pool, slot: nat, r: Req, ioErr: bool)
    requires slot < |p.sbufs| && |p.sbufs[slot]| == BUF_SIZE && HDR_SIZE + |r.data| <= BUF_SIZE
    ensures var p1 := p.(sbufs := p.sbufs[slot := Frame(r) + p.sbufs[slot][16 + |r.data|..]]);
            Transmit(p, slot, r, ioErr) ==
            if ioErr then (p1, -5)
            else if p.numFree <= 0 then (p1, -28)
            else (p1.(avail := p.avail + [Token(slot, 16 + |r.data|)], numFree := p.numFree - 1), 0)
  {
    WrittenFrame(p, slot, r);
    hide WriteHeader, WritePayload;
  }

  /** A send by its results. */
  lemma SendReturns(p: Pool, r: Req, len: i32, wait: bool, pending: bool, rounds: seq<Round>, ioErr: bool)
    requires forall i :: 0 <= i < |p.sbufs| ==> |p.sbufs[i]| == BUF_SIZE
    requires forall j :: 0 <= j < |p.used| ==> p.used[j] < |p.sbufs|
    requires forall i :: 0 <= i < |rounds| && rounds[i].Returned? ==> rounds[i].slot < |p.sbufs|
    requires SendCheck(r.src, r.dst, len) == 0 ==> |r.data| == len
    ensures var got, free := Gets(p, wait, pending, rounds), p.numFree + (if p.lastSbuf < |p.sbufs| then 0 else 1);
            TxMachine.Send(p, r, len, wait, pending, rounds, ioErr).1 ==
            if r.src == 0xFFFF_FFFF || r.dst == 0xFFFF_FFFF then Some(-22)
            else if !(0 <= len <= 496) then Some(-90)
            else if got.None? && !wait then Some(-12)
            else if got.None? then (if !pending && rounds != [] && rounds[0].Expired? then Some(-512) else None)
            else if ioErr then Some(-5)
            else if free <= 0 then Some(-28)
            else Some(0)
  {
    SendCheckExact(r.src, r.dst, len);
    var p1, got := GetTxBuf(p).0, Gets(p, wait, pending, rounds);
    if SendCheck(r.src, r.dst, len) == 0 && got.Some? {
      var slot := got.value;
      if p.lastSbuf < |p.sbufs| || p.used != [] {
        TransmitExact(p1, slot, r, ioErr);
      } else {
        TransmitExact(p1.(inDev := p1.inDev - {slot}, numFree := p1.numFree + 1), slot, r, ioErr);
      }
    }
    hide Transmit, SendCheck;
  }

  /** What a send that got a buffer leaves, by where the buffer came from. */
  function Left(p: Pool, slot: nat, r: Req, sent: bool): Pool
    requires slot < |p.sbufs| && HDR_SIZE + |r.data| <= |p.sbufs[slot]|
  {
    var sbufs := p.sbufs[slot := Frame(r) + p.sbufs[slot][16 + |r.data|..]];
    var avail, n := p.avail + (if sent then [Token(slot, 16 + |r.data|)] else []), p.numFree - (if sent then 1 else 0);
    var p' := p.(sbufs := sbufs, avail := avail, numFree := n);
    if p.lastSbuf < |p.sbufs| then p'.(lastSbuf := p.lastSbuf + 1)
    else if p.used != [] then p'.(used := p.used[1..], numFree := n + 1)
    else p'.(inDev := p.inDev - {slot}, numFree := n + 1)
  }

  /**
   * A send by what it leaves: nothing is changed without a buffer; with one, the buffer starts with the frame, and it
   * is available exactly on success. Sleepers, interrupts and every other buffer are as before.
   */
  lemma SendLeaves(p: Pool, r: Req, len: i32, wait: bool, pending: bool, rounds: seq<Round>, ioErr: bool)
    requires forall i :: 0 <= i < |p.sbufs| ==> |p.sbufs[i]| == BUF_SIZE
    requires forall j :: 0 <= j < |p.used| ==> p.used[j] < |p.sbufs|
    requires forall i :: 0 <= i < |rounds| && rounds[i].Returned? ==> rounds[i].slot < |p.sbufs|
    requires SendCheck(r.src, r.dst, len) == 0 ==> |r.data| == len
    ensures var (p', ret) := TxMachine.Send(p, r, len, wait, pending, rounds, ioErr);
            var got := Gets(p, wait, pending, rounds);
            if got.None? || ret == Some(-22) || ret == Some(-90) then p' == p
            else
              && got.value < |p.sbufs| && |r.data| <= 496
              && p' == Left(p, got.value, r, ret == Some(0))
  {
    SendReturns(p, r, len, wait, pending, rounds, ioErr);
    SendCheckExact(r.src, r.dst, len);
    var p1, got := GetTxBuf(p).0, Gets(p, wait, pending, rounds);
    if SendCheck(r.src, r.dst, len) == 0 && got.Some? {
      var slot := got.value;
      if p.lastSbuf < |p.sbufs| || p.used != [] {
        TransmitExact(p1, slot, r, ioErr);
      } else {
        TransmitExact(p1.(inDev := p1.inDev - {slot}, numFree := p1.numFree + 1), slot, r, ioErr);
      }
      assert p.avail + [] == p.avail;
    }
    hide Transmit, SendCheck, Frame;
  }

  /** A send times out exactly when it has to wait, no signal is pending, and its first wait runs out of time. */
  lemma TimesOutExactly(p: Pool, r: Req, len: i32, wait: bool, pending: bool, rounds: seq<Round>, ioErr: bool)
    requires forall i :: 0 <= i < |p.sbufs| ==> |p.sbufs[i]| == BUF_SIZE
    requires forall j :: 0 <= j < |p.used| ==> p.used[j] < |p.sbufs|
    requires forall i :: 0 <= i < |rounds| && rounds[i].Returned? ==> rounds[i].slot < |p.sbufs|
    requires SendCheck(r.src, r.dst, len) == 0 ==> |r.data| == len
    ensures TxMachine.Send(p, r, len, wait, pending, rounds, ioErr).1 == Some(ERESTARTSYS) <==>
            && SendCheck(r.src, r.dst, len) == 0 && GetTxBuf(p).1.None? && wait
            && !pending && rounds != [] && rounds[0].Expired?
  {
    hide WriteHeader, WritePayload;
  }

  /** Facts about the pool after any run from probe, which a send taken as one piece relies on. */
  lemma PoolInBounds(s0: State, rxRing: nat, txRing: nat, senders: nat, acts: seq<Action>)
    requires Init(s0, rxRing, txRing, senders)
    ensures var p := Run(s0, acts).p;
            && p.sleepers >= 0 && (p.cbOn <==> p.sleepers > 0)
            && (forall i :: 0 <= i < |p.sbufs| ==> |p.sbufs[i]| == BUF_SIZE)
            && (forall j :: 0 <= j < |p.used| ==> p.used[j] < |p.sbufs|)
            && (forall i :: i in p.inDev ==> i < |p.sbufs|)
  {
    hide Run, Step;
    var s := Run(s0, acts);
    TxTheorems.Reached(s0, rxRing, txRing, senders, acts);
    assert |s.owner| == |s.p.sbufs|;
    forall j | 0 <= j < |s.p.used| ensures s.p.used[j] < |s.p.sbufs| { assert s.p.used[j] < |s.owner|; }
  }

  /**
   * After any run from probe, a send leads to a state that is again reached by a run. So whatever holds of
   * every run holds of a pool on which sends were made, one piece after the other.
   */
  lemma SendsStayRuns(s0: State, rxRing: nat, txRing: nat, senders: nat, acts: seq<Action>,
                      t: nat, r: Req, len: i32, wait: bool, rounds: seq<Round>, ioErr: bool)
    requires Init(s0, rxRing, txRing, senders)
    requires t < senders && Run(s0, acts).pcs[t].Out? && AtDevice(Run(s0, acts).p, rounds)
    requires SendCheck(r.src, r.dst, len) == 0 ==> |r.data| == len
    ensures var s := Run(s0, acts);
            && (forall i :: 0 <= i < |s.p.sbufs| ==> |s.p.sbufs[i]| == BUF_SIZE)
            && (forall j :: 0 <= j < |s.p.used| ==> s.p.used[j] < |s.p.sbufs|)
    ensures var s := Run(s0, acts);
            var s' := Run(s0, acts + SendActs(s.p, t, r, len, wait, t in s.signals, rounds, ioErr));
            var (p, ret) := TxMachine.Send(s.p, r, len, wait, t in s.signals, rounds, ioErr);
            (s'.p, s'.pcs[t]) == (p, Outcome(r, ret))
  {
    hide Run, Step, SendActs, SendWaiting, Transmit;
    var s := Run(s0, acts);
    PoolInBounds(s0, rxRing, txRing, senders, acts);
    SendIsARun(s, t, r, len, wait, rounds, ioErr);
    RunAppend(s0, acts, SendActs(s.p, t, r, len, wait, t in s.signals, rounds, ioErr));
  }
}

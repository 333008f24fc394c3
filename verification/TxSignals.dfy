/**
 * Signals and blocking sends. A signal stays pending until its context is back in user space, so a sender
 * turned back by one never sleeps again in that send, and the timeout no longer applies to it.
 */
module TxSignals {
  import opened Common
  import opened Wire
  import opened TxMachine
  import TxSafety
  import TxTheorems

  // ----- what a sender turned back by a signal knows -----

  /** Off the wait queue with a signal pending. */
  predicate Kept(s: State, t: nat) {
    t in s.signals && t !in s.sendq
  }

  /** A wait that ends, or is about to end, with neither a buffer nor a timeout was ended by a signal. */
  predicate EndedBySignal(pc: Pc) {
    || (pc.Check? && pc.signalled)
    || (pc.Finish? && pc.got.None? && !pc.timedOut)
    || (pc.Down? && pc.msg.None? && !pc.timeout)
  }

  ghost predicate SignalsOk(s: State) {
    forall t: nat :: t < |s.pcs| && EndedBySignal(s.pcs[t]) ==> Kept(s, t)
  }

  /** A step of the sender itself. */
  predicate ActsFor(a: Action, t: nat) {
    (!a.DevTake? && !a.DevDone? && !a.DevNotify? && !a.TxIrq? && !a.RaiseSignal? && !a.HandleSignals?) && a.t == t
  }

  predicate Unmoved(s: State, s': State, t: nat) {
    && t < |s.pcs| == |s'.pcs| && s'.pcs[t] == s.pcs[t] && (t in s'.sendq ==> t in s.sendq)
    && (t in s.signals && !s.pcs[t].Out? ==> t in s'.signals)
  }

  lemma OtherWaiters(s: State, a: Action, t: nat)
    requires t < |s.pcs| && !ActsFor(a, t)
    requires a.Upref? || a.JoinQueue? || a.Leave? || a.FinishWait? || a.Downref? || a.Try? || a.FastTry?
    ensures Unmoved(s, Step(s, a), t)
  {
    hide Take, Frame, WriteHeader, WritePayload, UprefSleepers, DownrefSleepers, AddOutbuf, DoDevTake, DoDevDone;
    hide DoEnter, DoGrab, DoQueue;
  }

  lemma OtherSteps(s: State, a: Action, t: nat)
    requires t < |s.pcs| && !ActsFor(a, t)
    requires !(a.Upref? || a.JoinQueue? || a.Leave? || a.FinishWait? || a.Downref? || a.Try? || a.FastTry?)
    ensures Unmoved(s, Step(s, a), t)
  {
    hide Take, Frame, WriteHeader, WritePayload, UprefSleepers, DownrefSleepers, AddOutbuf, DoDevTake, DoDevDone;
    hide DoJoin, DoLeave, DoDownref, DoTry, DoFastTry, SendCheck;
  }

  /** Other contexts, the device and the interrupt leave a sender where it is, and at most wake it. */
  lemma Others(s: State, a: Action, t: nat)
    requires t < |s.pcs| && !ActsFor(a, t)
    ensures Unmoved(s, Step(s, a), t)
  {
    hide Step, Unmoved;
    if a.Upref? || a.JoinQueue? || a.Leave? || a.FinishWait? || a.Downref? || a.Try? || a.FastTry? {
      OtherWaiters(s, a, t);
    } else {
      OtherSteps(s, a, t);
    }
  }

  lemma OwnWaits(s: State, a: Action, t: nat)
    requires t < |s.pcs| && ActsFor(a, t) && (EndedBySignal(s.pcs[t]) ==> Kept(s, t))
    requires a.Upref? || a.JoinQueue? || a.Leave? || a.FinishWait? || a.Downref? || a.Try? || a.FastTry?
    ensures EndedBySignal(Step(s, a).pcs[t]) ==> Kept(Step(s, a), t)
  {
    hide Take, Frame, WriteHeader, WritePayload, UprefSleepers, DownrefSleepers, AddOutbuf, DoDevTake, DoDevDone;
    hide DoEnter, DoGrab, DoQueue;
  }

  lemma OwnSignals(s: State, a: Action, t: nat)
    requires t < |s.pcs| && ActsFor(a, t) && (EndedBySignal(s.pcs[t]) ==> Kept(s, t))
    ensures EndedBySignal(Step(s, a).pcs[t]) ==> Kept(Step(s, a), t)
  {
    if a.Upref? || a.JoinQueue? || a.Leave? || a.FinishWait? || a.Downref? || a.Try? || a.FastTry? {
      OwnWaits(s, a, t);
    } else {
      hide Take, Frame, WriteHeader, WritePayload, AddOutbuf, SendCheck;
      hide DoJoin, DoLeave, DoDownref, DoTry, DoFastTry, DoDevTake, DoDevDone;
    }
  }

  lemma StepSignals(s: State, a: Action)
    requires SignalsOk(s)
    ensures SignalsOk(Step(s, a))
  {
    hide Step;
    var s' := Step(s, a);
    forall t: nat | t < |s'.pcs| && EndedBySignal(s'.pcs[t]) ensures Kept(s', t) {
      if ActsFor(a, t) { OwnSignals(s, a, t); } else { Others(s, a, t); }
    }
  }

  lemma {:induction false} RunSignals(s: State, acts: seq<Action>)
    requires SignalsOk(s)
    ensures SignalsOk(Run(s, acts))
    decreases |acts|
  {
    hide SignalsOk, Step;
    if acts != [] {
      StepSignals(s, acts[0]);
      RunSignals(Step(s, acts[0]), acts[1..]);
    }
  }

  // ----- the rest of that send -----

  /** The places of a send that a sender turned back by a signal can still reach; sleeping is not among them. */
  predicate Spins(pc: Pc) {
    || pc.LoopTop? || pc.FastCheck? || (pc.Join? && !pc.expired) || (pc.Check? && !pc.expired && pc.signalled)
    || (pc.Finish? && !pc.timedOut) || (pc.Down? && !pc.timeout) || pc.Hold? || pc.HdrDone? || pc.Filled?
  }

  predicate Answered(pc: Pc) {
    pc == Out(0) || pc == Out(EIO) || pc == Out(ENOSPC)
  }

  /** Still trying for a buffer without sleeping, or done with the answer of an add. */
  predicate Awake(s: State, t: nat) {
    t < |s.pcs| && t !in s.sendq && ((t in s.signals && Spins(s.pcs[t])) || Answered(s.pcs[t]))
  }

  predicate NoNewSend(acts: seq<Action>, t: nat) {
    forall i :: 0 <= i < |acts| && acts[i].Enter? ==> acts[i].t != t
  }

  lemma OwnAwake(s: State, a: Action, t: nat)
    requires Awake(s, t) && ActsFor(a, t) && !a.Enter?
    ensures Awake(Step(s, a), t)
  {
    hide Take, Frame, WriteHeader, WritePayload, UprefSleepers, DownrefSleepers, AddOutbuf, DoDevTake, DoDevDone;
    hide DoEnter;
  }

  lemma StepAwake(s: State, a: Action, t: nat)
    requires Awake(s, t) && !(a.Enter? && a.t == t)
    ensures Awake(Step(s, a), t)
  {
    hide Step;
    if ActsFor(a, t) { OwnAwake(s, a, t); } else { Others(s, a, t); }
  }

  lemma {:induction false} RunAwake(s: State, acts: seq<Action>, t: nat)
    requires Awake(s, t) && NoNewSend(acts, t)
    ensures Awake(Run(s, acts), t)
    decreases |acts|
  {
    hide Awake, Step;
    if acts != [] {
      StepAwake(s, acts[0], t);
      RunAwake(Step(s, acts[0]), acts[1..], t);
    }
  }

  /** About to wait with a signal pending, or at the end of a wait that gave neither a buffer nor a timeout. */
  predicate TurnedBack(s: State, t: nat) {
    t < |s.pcs| &&
    var pc := s.pcs[t];
    (pc.LoopTop? && t in s.signals) || (pc.Finish? && pc.got.None? && !pc.timedOut)
  }

  lemma TurnedBackAwake(s: State, t: nat)
    requires TxSafety.Inv(s) && SignalsOk(s) && TurnedBack(s, t)
    ensures Awake(s, t)
  {
    assert t in s.sendq ==> TxSafety.MayQueue(s.pcs[t]);
    hide TxSafety.Inv;
    if s.pcs[t].Finish? { assert Kept(s, t); }
  }

  /**
   * Over every run: a send that has to wait with a signal pending, or that a signal turned back from a wait, is
   * never on the wait queue from then on, never sleeps, and never times out; it ends only with the answer of an
   * add. So a send can time out in its first wait only, and only if no signal was pending when it began.
   */
  lemma TurnedBackNeverSleeps(s0: State, rxRing: nat, txRing: nat, senders: nat,
                              before: seq<Action>, after: seq<Action>, t: nat)
    requires Init(s0, rxRing, txRing, senders)
    requires TurnedBack(Run(s0, before), t) && NoNewSend(after, t)
    ensures var s := Run(s0, before + after);
            && t !in s.sendq && !s.pcs[t].Sched?
            && (s.pcs[t].Out? ==> s.pcs[t].ret in {0, EIO, ENOSPC})
  {
    hide Run, Step;
    RunSignals(s0, before);
    TxTheorems.Reached(s0, rxRing, txRing, senders, before);
    var s := Run(s0, before);
    TurnedBackAwake(s, t);
    hide TxSafety.Inv, SignalsOk, TurnedBack;
    RunAwake(s, after, t);
    RunAppend(s0, before, after);
  }

  // ----- when a send times out -----

  /** The timer ended a wait and the last check found no buffer. */
  predicate GaveUp(s: State, t: nat) {
    t < |s.pcs| && s.pcs[t].Finish? && s.pcs[t].timedOut
  }

  /** From giving up to having said so. */
  predicate TimingOut(pc: Pc) {
    (pc.Finish? && pc.timedOut) || (pc.Down? && pc.timeout) || pc == Out(ERESTARTSYS)
  }

  /** Some state of the run, the first and the last included, is one of giving up. */
  predicate EverGaveUp(s: State, acts: seq<Action>, t: nat)
    decreases |acts|
  {
    GaveUp(s, t) || (acts != [] && EverGaveUp(Step(s, acts[0]), acts[1..], t))
  }

  lemma {:induction false} EverExact(s: State, acts: seq<Action>, t: nat)
    ensures EverGaveUp(s, acts, t) <==> exists k: nat :: k <= |acts| && GaveUp(Run(s, acts[..k]), t)
    decreases |acts|
  {
    hide Step, GaveUp;
    assert Run(s, acts[..0]) == s;
    if acts != [] {
      var s1, rest := Step(s, acts[0]), acts[1..];
      EverExact(s1, rest, t);
      forall k: nat | k <= |rest| ensures Run(s1, rest[..k]) == Run(s, acts[..k + 1]) {
        assert acts[..k + 1][1..] == rest[..k];
      }
      if exists k: nat :: k <= |acts| && GaveUp(Run(s, acts[..k]), t) {
        var k: nat :| k <= |acts| && GaveUp(Run(s, acts[..k]), t);
        if k > 0 { assert Run(s1, rest[..k - 1]) == Run(s, acts[..k]); }
      }
      if EverGaveUp(s1, rest, t) {
        var k: nat :| k <= |rest| && GaveUp(Run(s1, rest[..k]), t);
        assert GaveUp(Run(s, acts[..k + 1]), t);
      }
    }
  }

  lemma OwnTimesOut(s: State, a: Action, t: nat)
    requires t < |s.pcs| && ActsFor(a, t) && !a.Enter?
    ensures TimingOut(s.pcs[t]) ==> TimingOut(Step(s, a).pcs[t])
    ensures !TimingOut(s.pcs[t]) && TimingOut(Step(s, a).pcs[t]) ==> GaveUp(Step(s, a), t)
  {
    hide Take, Frame, WriteHeader, WritePayload, UprefSleepers, DownrefSleepers, AddOutbuf, DoDevTake, DoDevDone;
    hide DoEnter;
  }

  /** Giving up is the only way in, and there is no way out before the next send. */
  lemma StepTimesOut(s: State, a: Action, t: nat)
    requires t < |s.pcs| && !(a.Enter? && a.t == t)
    ensures TimingOut(s.pcs[t]) ==> TimingOut(Step(s, a).pcs[t])
    ensures !TimingOut(s.pcs[t]) && TimingOut(Step(s, a).pcs[t]) ==> GaveUp(Step(s, a), t)
  {
    hide Step, TimingOut;
    if ActsFor(a, t) { OwnTimesOut(s, a, t); } else { Others(s, a, t); }
  }

  lemma {:induction false} RunTimesOut(s: State, acts: seq<Action>, t: nat)
    requires t < |s.pcs| && NoNewSend(acts, t)
    ensures TimingOut(Run(s, acts).pcs[t]) <==> TimingOut(s.pcs[t]) || EverGaveUp(s, acts, t)
    decreases |acts|
  {
    hide Step;
    if acts != [] {
      StepTimesOut(s, acts[0], t);
      RunTimesOut(Step(s, acts[0]), acts[1..], t);
    }
  }

  /** The waits a sender begins in a run. */
  function WaitsBegun(s: State, acts: seq<Action>, t: nat): nat
    decreases |acts|
  {
    if acts == [] then 0 else Begins(s, acts[0], t) + WaitsBegun(Step(s, acts[0]), acts[1..], t)
  }

  function Begins(s: State, a: Action, t: nat): nat {
    if a == Upref(t) && t < |s.pcs| && s.pcs[t].LoopTop? then 1 else 0
  }

  /** Where a send can be that has begun `w` waits: after the first, it can only begin another if turned back. */
  predicate Phase(s: State, t: nat, w: nat) {
    && t < |s.pcs|
    && (w == 0 ==> !Bracketed(s.pcs[t]) && s.pcs[t] != Out(ERESTARTSYS))
    && (w == 1 ==> !s.pcs[t].First? && (s.pcs[t].LoopTop? ==> Awake(s, t)))
    && (w >= 2 ==> Awake(s, t))
  }

  lemma OwnPhase(s: State, a: Action, t: nat, w: nat)
    requires Phase(s, t, w) && ActsFor(a, t) && !a.Enter? && w <= 1
    requires EndedBySignal(s.pcs[t]) ==> Kept(s, t)
    ensures w == 0 && Begins(s, a, t) == 0 ==> Phase(Step(s, a), t, 0)
    ensures w + Begins(s, a, t) == 1 ==> Phase(Step(s, a), t, 1)
  {
    hide Take, Frame, WriteHeader, WritePayload, UprefSleepers, DownrefSleepers, AddOutbuf, DoDevTake, DoDevDone;
    hide DoEnter;
  }

  lemma PhaseStep(s: State, a: Action, t: nat, w: nat)
    requires Phase(s, t, w) && SignalsOk(s) && !(a.Enter? && a.t == t)
    ensures Phase(Step(s, a), t, w + Begins(s, a, t))
  {
    assert EndedBySignal(s.pcs[t]) ==> Kept(s, t);
    hide Step, SignalsOk, Awake;
    if Awake(s, t) { StepAwake(s, a, t); }
    if ActsFor(a, t) {
      if w <= 1 { OwnPhase(s, a, t, w); }
    } else {
      Others(s, a, t);
    }
  }

  lemma {:induction false} PhaseRun(s: State, acts: seq<Action>, t: nat, w: nat)
    requires Phase(s, t, w) && SignalsOk(s) && NoNewSend(acts, t)
    ensures Phase(Run(s, acts), t, w + WaitsBegun(s, acts, t))
    decreases |acts|
  {
    hide Step, Phase, SignalsOk;
    if acts != [] {
      PhaseStep(s, acts[0], t, w);
      StepSignals(s, acts[0]);
      PhaseRun(Step(s, acts[0]), acts[1..], t, w + Begins(s, acts[0], t));
    }
  }

  /**
   * Over every run in which a send begins: it has returned -ERESTARTSYS if and only if it has returned and at some
   * point the timer had ended a wait of it without a buffer; and that wait is then its first and only one.
   */
  lemma TimesOutInFirstWait(s0: State, rxRing: nat, txRing: nat, senders: nat,
                            before: seq<Action>, after: seq<Action>, t: nat)
    requires Init(s0, rxRing, txRing, senders) && t < senders
    requires Run(s0, before).pcs[t].First? && NoNewSend(after, t)
    ensures var s, s' := Run(s0, before), Run(s0, before + after);
            && (s'.pcs[t] == Out(ERESTARTSYS) <==>
                  s'.pcs[t].Out? && exists k: nat :: k <= |after| && GaveUp(Run(s, after[..k]), t))
            && (s'.pcs[t] == Out(ERESTARTSYS) ==> WaitsBegun(s, after, t) == 1)
  {
    hide Run, Step;
    RunAppend(s0, before, after);
    var s := Run(s0, before);
    RunSignals(s0, before);
    hide SignalsOk, WaitsBegun, EverGaveUp;
    RunTimesOut(s, after, t);
    EverExact(s, after, t);
    PhaseRun(s, after, t, 0);
  }

  /** A send that has returned -ERESTARTSYS was never turned back. */
  lemma TimeoutNeverTurnedBack(s0: State, rxRing: nat, txRing: nat, senders: nat,
                               before: seq<Action>, after: seq<Action>, t: nat, k: nat)
    requires Init(s0, rxRing, txRing, senders) && k <= |after| && NoNewSend(after, t)
    requires TurnedBack(Run(s0, before + after[..k]), t)
    ensures Run(s0, before + after).pcs[t] != Out(ERESTARTSYS)
  {
    assert before + after == (before + after[..k]) + after[k..];
    TurnedBackNeverSleeps(s0, rxRing, txRing, senders, before + after[..k], after[k..], t);
  }
}

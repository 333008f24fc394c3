/**
 * One read call taken as a whole, the device object whose fields it updates, and the run of the protocol
 * it stands for.
 */
module CharReads {
  import opened Common
  import opened CharReader
  import opened CharReaderSafety

  /** How a blocking reader's wait ends: a message arrives, the endpoint goes away, or a signal. */
  datatype Wake = Message(m: Msg) | Lost | Interrupted

  /** A message handed to the reader, or lost to a bad user buffer. */
  function Handed(m: Msg, count: nat, fault: bool): Ret {
    if fault then Err(EFAULT) else Data(Prefix(m, count))
  }

  /** A read with no other reader about: what becomes of the endpoint and the queue, and what is returned. */
  function ReadOnce(ept: bool, queue: seq<Msg>, count: nat, nonblock: bool, wake: Wake, fault: bool)
    : (bool, seq<Msg>, Ret)
  {
    if !ept then (ept, queue, Err(EPIPE))
    else if queue != [] then (ept, queue[1..], Handed(queue[0], count, fault))
    else if nonblock then (ept, queue, Err(EAGAIN))
    else
      match wake
      case Message(m) => (ept, queue, Handed(m, count, fault))
      case Lost => (false, queue, Err(EPIPE))
      case Interrupted => (ept, queue, Err(ERESTARTSYS))
  }

  // ----- the device object -----

  class Eptdev {
    var ept: bool
    var queue: seq<Msg>
    var wakes: nat // wake-up calls made

    /** Just opened. */
    constructor ()
      ensures ept && queue == [] && wakes == 0
    {
      ept, queue, wakes := true, [], 0;
    }

    /** The endpoint's callback: append and wake, or lose the message for want of memory. */
    method RpmsgEptCb(msg: Msg, noMem: bool) returns (ret: int)
      modifies this`queue, this`wakes
      ensures noMem ==> ret == ENOMEM && queue == old(queue) && wakes == old(wakes)
      ensures !noMem ==> ret == 0 && queue == old(queue) + [msg] && wakes == old(wakes) + 1
    {
      if noMem {
        return ENOMEM;
      }
      queue := queue + [msg];
      wakes := wakes + 1;
      return 0;
    }

    /** The endpoint goes; what is queued stays, but can no longer be read. */
    method Destroy()
      modifies this`ept, this`wakes
      ensures !ept && wakes == old(wakes) + 1
    {
      if ept {
        ept := false;
      }
      wakes := wakes + 1;
    }

    method Release()
      modifies this`ept, this`queue
      ensures !ept && queue == []
    {
      if ept {
        ept := false;
      }
      queue := [];
    }

    /** What others do while the reader sleeps. */
    method Meanwhile(wake: Wake)
      modifies this
      ensures match wake
              case Message(m) => ept == old(ept) && queue == old(queue) + [m]
              case Lost => !ept && queue == old(queue)
              case Interrupted => ept == old(ept) && queue == old(queue)
    {
      match wake
      case Message(m) => var ret := RpmsgEptCb(m, false);
      case Lost => Destroy();
      case Interrupted =>
    }

    /**
     * Without an endpoint nothing is taken. The oldest message is taken, and its first bytes handed over unless the
     * user's buffer faults. With none the call fails at once, or waits for a message, the end of the endpoint or a
     * signal.
     */
    method ReadIter(count: nat, nonblock: bool, wake: Wake, fault: bool) returns (ret: Ret)
      modifies this
      ensures (ept, queue, ret) == ReadOnce(old(ept), old(queue), count, nonblock, wake, fault)
      ensures !old(ept) ==> ret == Err(-32) && !ept && queue == old(queue)
      ensures old(ept) && old(queue) != [] ==>
                var m := old(queue)[0];
                && ept && queue == old(queue)[1..]
                && ret == if fault then Err(-14) else Data(m[..if count < |m| then count else |m|])
      ensures old(ept) && old(queue) == [] && nonblock ==> ret == Err(-11) && ept && queue == []
      ensures old(ept) && old(queue) == [] && !nonblock && wake.Message? ==>
                var m := wake.m;
                && ept && queue == []
                && ret == if fault then Err(-14) else Data(m[..if count < |m| then count else |m|])
      ensures old(ept) && old(queue) == [] && !nonblock && wake.Lost? ==> ret == Err(-32) && !ept && queue == []
      ensures old(ept) && old(queue) == [] && !nonblock && wake.Interrupted? ==> ret == Err(-512) && ept && queue == []
    {
      if !ept {
        return Err(EPIPE);
      }
      if queue == [] {
        if nonblock {
          return Err(EAGAIN);
        }
        Meanwhile(wake);
        if queue == [] && ept {
          return Err(ERESTARTSYS);
        }
        if !ept {
          return Err(EPIPE);
        }
      }
      if queue == [] {
        return Err(EFAULT);
      }
      var skb := queue[0];
      queue := queue[1..];
      assert old(queue) == [] ==> skb == ([] + [wake.m])[0] && queue == [];
      var use := if count < |skb| then count else |skb|;
      assert skb[..use] == Prefix(skb, count);
      return if fault then Err(EFAULT) else Data(skb[..use]);
    }
  }

  // ----- the run a read stands for -----

  /** What a call left behind: the device, the queue, and one more return in the log. */
  predicate Shows(s: State, was: seq<Returned>, t: nat, n: nat, ept: bool, queue: seq<Msg>, ret: Ret) {
    && s.ept == ept && s.queue == queue && t < |s.pcs| && s.pcs[t].Out?
    && |s.ended| == |was| + 1 && was <= s.ended
    && s.ended[|was|].t == t && s.ended[|was|].count == n && s.ended[|was|].ret == ret
  }

  function Starts(t: nat, n: nat, nonblock: bool): seq<Action> {
    [Read(t, n, nonblock), TestEpt(t), EnterQueue(t)]
  }

  /** Take the message and copy it out. */
  function Takes(t: nat, fault: bool): seq<Action> {
    [Dequeue(t), Copy(t, fault)]
  }

  lemma CopyEffect(s: State, t: nat, m: Msg, fault: bool)
    requires t < |s.pcs| && s.pcs[t].Copying? && s.pcs[t].k < |s.dequeued| && s.dequeued[s.pcs[t].k].msg == m
    ensures Shows(Step(s, Copy(t, fault)), s.ended, t, s.pcs[t].count, s.ept, s.queue, Handed(m, s.pcs[t].count, fault))
  {
  }

  lemma TakesEffect(s: State, t: nat, fault: bool)
    requires t < |s.pcs| && s.pcs[t].Grab? && s.queue != []
    ensures Shows(Run(s, Takes(t, fault)), s.ended, t, s.pcs[t].count, s.ept, s.queue[1..],
                  Handed(s.queue[0], s.pcs[t].count, fault))
  {
    hide Run;
    var s1 := TakeFirst(s, t, s.pcs[t].count);
    assert Step(s, Dequeue(t)) == s1;
    hide Step;
    CopyEffect(s1, t, s.queue[0], fault);
    RunThrough(Takes(t, fault), [s, s1, Step(s1, Copy(t, fault))]);
  }

  lemma QuickEffect(s: State, t: nat, n: nat, nonblock: bool, fault: bool)
    requires t < |s.pcs| && s.pcs[t].Out? && !s.released && s.ept && (s.queue != [] || nonblock)
    ensures var s1 := Run(s, Starts(t, n, nonblock));
            if s.queue == [] then Shows(s1, s.ended, t, n, true, [], Err(EAGAIN))
            else Shows(Step(s1, Copy(t, fault)), s.ended, t, n, true, s.queue[1..], Handed(s.queue[0], n, fault))
  {
    hide Run;
    var s1, s2 := Goto(s, t, Start(n, nonblock)), Goto(s, t, Entry(n, nonblock));
    assert Step(s, Read(t, n, nonblock)) == s1;
    assert Step(s1, TestEpt(t)) == s2;
    var s3 := DoEntry(s2, t);
    assert Step(s2, EnterQueue(t)) == s3;
    hide Step;
    RunThrough(Starts(t, n, nonblock), [s, s1, s2, s3]);
    if s.queue != [] { CopyEffect(s3, t, s.queue[0], fault); }
  }

  lemma NoEndpointEffect(s: State, t: nat, n: nat, nonblock: bool)
    requires t < |s.pcs| && s.pcs[t].Out? && !s.released && !s.ept
    ensures Shows(Run(s, [Read(t, n, nonblock), TestEpt(t)]), s.ended, t, n, false, s.queue, Err(EPIPE))
  {
    hide Run;
    var s1 := Goto(s, t, Start(n, nonblock));
    assert Step(s, Read(t, n, nonblock)) == s1;
    assert Step(s1, TestEpt(t)) == Return(s1, t, Err(EPIPE));
    hide Step;
    RunThrough([Read(t, n, nonblock), TestEpt(t)], [s, s1, Return(s1, t, Err(EPIPE))]);
  }

  /** A signal is pending when the reader joins the wait queue. */
  function Signals(t: nat): seq<Action> {
    [EvalE(t), JoinQueue(t, true), EvalQ(t), EvalE(t)]
  }

  lemma SignalledEnd(s: State, t: nat, n: nat)
    requires t < |s.pcs| && s.pcs[t] == CheckE(n, true) && s.ept && s.queue == []
    ensures Step(s, EvalE(t)) == Return(s, t, Err(ERESTARTSYS))
    ensures Shows(Step(s, EvalE(t)), s.ended, t, n, true, [], Err(ERESTARTSYS))
  {
  }

  lemma SignalsEffect(s: State, t: nat, n: nat)
    requires t < |s.pcs| && s.pcs[t] == FastE(n) && s.ept && s.queue == []
    ensures Shows(Run(s, Signals(t)), s.ended, t, n, true, [], Err(ERESTARTSYS))
  {
    hide Run, Step, Shows;
    var q := s.waitq - {t};
    var s1, s3 := At(s, t, Join(n), s.waitq), At(s, t, CheckE(n, true), q);
    FastEStep(s, t, n);
    JoinsEffect(s1, t, n, true);
    AtTwice(s, t, Join(n), s.waitq, CheckE(n, true), q);
    SignalledEnd(s3, t, n);
    RunThrough(Signals(t), [s, s1, At(s1, t, CheckQ(n, true), q), s3, Step(s3, EvalE(t))]);
  }

  /** The endpoint is destroyed and the readers are told. */
  function Goes(): seq<Action> {
    [DestroyEpt, ClearEpt, DestroyWake]
  }

  lemma GoesEffect(s: State)
    requires s.life.Alive?
    ensures Run(s, Goes()) == s.(life := Woken, ept := false, waitq := {})
  {
    hide Run;
    var s1 := s.(life := CbGone);
    var s2 := s1.(life := EptGone, ept := false);
    assert Step(s, DestroyEpt) == s1;
    assert Step(s1, ClearEpt) == s2;
    assert Step(s2, DestroyWake) == s2.(life := Woken, waitq := {});
    hide Step;
    RunThrough(Goes(), [s, s1, s2, s2.(life := Woken, waitq := {})]);
  }

  function Looks(t: nat): seq<Action> {
    [Leave(t, false), JoinQueue(t, false), EvalQ(t), EvalE(t)]
  }

  lemma LooksEffect(s: State, t: nat, n: nat)
    requires t < |s.pcs| && s.pcs[t] == Sched(n) && t !in s.waitq && !s.ept && s.queue == []
    ensures Run(s, Looks(t)) == At(s, t, Fin(n), s.waitq + {t})
  {
    hide Run, Step;
    var q := s.waitq + {t};
    var s1, s3, s4 := At(s, t, Join(n), s.waitq), At(s, t, CheckE(n, false), q), At(s, t, Fin(n), q);
    LeaveStep(s, t, n);
    JoinsEffect(s1, t, n, false);
    AtTwice(s, t, Join(n), s.waitq, CheckE(n, false), q);
    CheckEStep(s3, t, n);
    AtTwice(s, t, CheckE(n, false), q, Fin(n), q);
    RunThrough(Looks(t), [s, s1, At(s1, t, CheckQ(n, false), q), s3, s4]);
  }

  lemma GivesUpEffect(s: State, t: nat, n: nat)
    requires t < |s.pcs| && s.pcs[t] == Fin(n) && !s.ept
    ensures Shows(Run(s, Returns(t)), s.ended, t, n, false, s.queue, Err(EPIPE))
  {
    hide Run;
    var s1 := At(s, t, Woke(n), s.waitq - {t});
    assert Step(s, FinishWait(t)) == s1;
    assert Step(s1, Retest(t)) == Return(s1, t, Err(EPIPE));
    hide Step;
    RunThrough(Returns(t), [s, s1, Return(s1, t, Err(EPIPE))]);
  }

  lemma MessageEffect(s: State, t: nat, n: nat, m: Msg, fault: bool)
    requires t < |s.pcs| && s.pcs[t] == Sched(n) && s.ept && s.life.Alive? && s.queue == []
    ensures Shows(Run(s, Delivery(m) + (Wakes(t) + Takes(t, fault))), s.ended, t, n, true, [], Handed(m, n, fault))
  {
    hide Run, Step, Delivery, Wakes, Takes;
    DeliveryEffect(s, m);
    var s1 := Run(s, Delivery(m));
    WakesEffect(s1, t, n);
    TakesEffect(At(s1, t, Grab(n), s1.waitq), t, fault);
    RunAppend(s, Delivery(m), Wakes(t) + Takes(t, fault));
    RunAppend(s1, Wakes(t), Takes(t, fault));
  }

  lemma LostEffect(s: State, t: nat, n: nat)
    requires t < |s.pcs| && s.pcs[t] == Sched(n) && s.life.Alive? && s.queue == []
    ensures Shows(Run(s, Goes() + (Looks(t) + Returns(t))), s.ended, t, n, false, [], Err(EPIPE))
  {
    hide Run, Step, Goes, Looks, Returns;
    GoesEffect(s);
    var s1 := s.(life := Woken, ept := false, waitq := {});
    LooksEffect(s1, t, n);
    GivesUpEffect(At(s1, t, Fin(n), s1.waitq + {t}), t, n);
    RunAppend(s, Goes(), Looks(t) + Returns(t));
    RunAppend(s1, Looks(t), Returns(t));
  }

  /** The steps of a read, and of those that end its wait. */
  function ReadActs(ept: bool, queue: seq<Msg>, t: nat, n: nat, nonblock: bool, wake: Wake, fault: bool): seq<Action> {
    if !ept then [Read(t, n, nonblock), TestEpt(t)]
    else if queue != [] then Starts(t, n, nonblock) + [Copy(t, fault)]
    else if nonblock then Starts(t, n, nonblock)
    else
      match wake
      case Message(m) => Blocks(t, n) + (Delivery(m) + (Wakes(t) + Takes(t, fault)))
      case Lost => Blocks(t, n) + (Goes() + (Looks(t) + Returns(t)))
      case Interrupted => Tries(t, n) + Signals(t)
  }

  lemma BlockingIsARun(s: State, t: nat, n: nat, wake: Wake, fault: bool)
    requires t < |s.pcs| && s.pcs[t].Out? && !s.released && s.ept && s.queue == [] && s.life.Alive?
    ensures var (ept, queue, ret) := ReadOnce(s.ept, s.queue, n, false, wake, fault);
            Shows(Run(s, ReadActs(s.ept, s.queue, t, n, false, wake, fault)), s.ended, t, n, ept, queue, ret)
  {
    hide Run, Step, Blocks, Delivery, Wakes, Takes, Goes, Looks, Returns, Tries, Signals, Shows, Handed;
    match wake
    case Message(m) =>
      BlocksEffect(s, t, n);
      MessageEffect(At(s, t, Sched(n), s.waitq + {t}), t, n, m, fault);
      RunAppend(s, Blocks(t, n), Delivery(m) + (Wakes(t) + Takes(t, fault)));
    case Lost =>
      BlocksEffect(s, t, n);
      LostEffect(At(s, t, Sched(n), s.waitq + {t}), t, n);
      RunAppend(s, Blocks(t, n), Goes() + (Looks(t) + Returns(t)));
    case Interrupted =>
      TriesEffect(s, t, n);
      SignalsEffect(At(s, t, FastE(n), s.waitq), t, n);
      RunAppend(s, Tries(t, n), Signals(t));
  }

  lemma RunOne(s: State, a: Action)
    ensures Run(s, [a]) == Step(s, a)
  {
    RunThrough([a], [s, Step(s, a)]);
  }

  /** A whole read is a run of the protocol with the same effect and return value, however its wait ends. */
  lemma ReadIsARun(s: State, t: nat, n: nat, nonblock: bool, wake: Wake, fault: bool)
    requires t < |s.pcs| && s.pcs[t].Out? && !s.released
    requires s.ept && s.queue == [] && !nonblock ==> s.life.Alive?
    ensures var (ept, queue, ret) := ReadOnce(s.ept, s.queue, n, nonblock, wake, fault);
            Shows(Run(s, ReadActs(s.ept, s.queue, t, n, nonblock, wake, fault)), s.ended, t, n, ept, queue, ret)
  {
    hide Run, Step, Starts, Shows, Handed;
    if !s.ept {
      NoEndpointEffect(s, t, n, nonblock);
    } else if s.queue != [] || nonblock {
      QuickEffect(s, t, n, nonblock, fault);
      RunAppend(s, Starts(t, n, nonblock), [Copy(t, fault)]);
      RunOne(Run(s, Starts(t, n, nonblock)), Copy(t, fault));
    } else {
      BlockingIsARun(s, t, n, wake, fault);
    }
  }
}

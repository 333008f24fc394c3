/** The reader queue over every run: order, no duplication, and no lost wake-up. */
module CharReaderSafety {
  import opened Common
  import opened CharReader

  lemma InitInv(s: State, readers: nat)
    requires Init(s, readers)
    ensures Inv(s)
  {
  }

  lemma PcOf(s: State, t: nat)
    requires PcsOk(s) && t < |s.pcs|
    ensures PcOk(s.dequeued, s.done, s.waitq, t, s.pcs[t])
  {
  }

  /** No return, or one more that held no message. */
  predicate NoMessage(s: State, s': State) {
    || s'.ended == s.ended
    || (|s'.ended| == |s.ended| + 1 && s.ended <= s'.ended
        && s'.ended[|s.ended|].from.None? && s'.ended[|s.ended|].ret.Err?)
  }

  /** One reader moves, changing nothing but its own place, its membership of the wait queue, and the returns. */
  lemma Move(s: State, s': State, t: nat, pc: Pc)
    requires Inv(s) && t < |s.pcs|
    requires s' == s.(pcs := s.pcs[t := pc], waitq := s'.waitq, ended := s'.ended) && NoMessage(s, s')
    requires s'.waitq <= s.waitq + {t} && s.waitq <= s'.waitq + {t}
    requires PcOk(s.dequeued, s.done, s'.waitq, t, pc)
    requires t in s'.waitq && (pc.CheckE? || pc.Sched?) ==> QueueCovered(s)
    requires t in s'.waitq && pc.Sched? ==> EptCovered(s)
    ensures Inv(s')
  {
    forall u: nat | u < |s'.pcs| ensures PcOk(s'.dequeued, s'.done, s'.waitq, u, s'.pcs[u]) {
      PcOf(s, u);
    }
  }

  lemma WaitStep(s: State, a: Action)
    requires Inv(s)
    requires a.Read? || a.TestEpt? || a.JoinQueue? || a.Leave? || a.FinishWait? || a.Retest?
    ensures Inv(Step(s, a))
  {
    var s' := Step(s, a);
    if s' != s {
      PcOf(s, a.t);
      hide PcsOk, LogOk, DoneOk;
      Move(s, s', a.t, s'.pcs[a.t]);
    }
  }

  lemma CheckStep(s: State, a: Action)
    requires Inv(s) && (a.EvalQ? || a.EvalE?)
    ensures Inv(Step(s, a))
  {
    var s' := Step(s, a);
    if s' != s {
      PcOf(s, a.t);
      hide PcsOk, LogOk, DoneOk;
      Move(s, s', a.t, s'.pcs[a.t]);
    }
  }

  lemma TakePcs(s: State, t: nat, count: nat)
    requires PcsOk(s) && t < |s.pcs| && s.queue != [] && t !in s.waitq && DoneOk(s.dequeued, s.ended, s.done)
    ensures PcsOk(TakeFirst(s, t, count))
  {
    var s' := TakeFirst(s, t, count);
    forall u: nat | u < |s'.pcs| ensures PcOk(s'.dequeued, s'.done, s'.waitq, u, s'.pcs[u]) {
      PcOf(s, u);
    }
  }

  lemma TakeLog(s: State, t: nat, count: nat)
    requires LogOk(s) && t < |s.pcs| && s.queue != []
    ensures LogOk(TakeFirst(s, t, count))
  {
    var s' := TakeFirst(s, t, count);
    assert s.discarded == [];
    assert Msgs(s'.dequeued) == Msgs(s.dequeued) + [s.queue[0]];
    assert s.queue == [s.queue[0]] + s.queue[1..];
  }

  lemma TakeInv(s: State, t: nat, count: nat)
    requires Inv(s) && t < |s.pcs| && s.queue != [] && t !in s.waitq
    ensures Inv(TakeFirst(s, t, count))
  {
    TakePcs(s, t, count);
    TakeLog(s, t, count);
    hide PcsOk, LogOk;
  }

  lemma DequeueStep(s: State, a: Action)
    requires Inv(s) && (a.EnterQueue? || a.Dequeue?)
    ensures Inv(Step(s, a))
  {
    var s' := Step(s, a);
    if s' != s {
      PcOf(s, a.t);
      hide PcsOk, LogOk, DoneOk, WakeOk;
      if s.queue != [] {
        TakeInv(s, a.t, s.pcs[a.t].count);
      } else {
        Move(s, s', a.t, s'.pcs[a.t]);
      }
    }
  }

  lemma CopyStep(s: State, t: nat, fault: bool)
    requires Inv(s) && t < |s.pcs| && s.pcs[t].Copying?
    ensures Inv(DoCopy(s, t, fault))
  {
    var s' := DoCopy(s, t, fault);
    PcOf(s, t);
    forall u: nat | u < |s'.pcs| ensures PcOk(s'.dequeued, s'.done, s'.waitq, u, s'.pcs[u]) {
      PcOf(s, u);
    }
  }

  /** Arrivals, wake-ups, and the endpoint's end: no reader moves. */
  lemma OutsideStep(s: State, a: Action)
    requires Inv(s) && (a.Arrive? || a.CbWake? || a.DestroyEpt? || a.ClearEpt? || a.DestroyWake? || a.Release?)
    ensures Inv(Step(s, a))
  {
    var s' := Step(s, a);
    assert PcsOk(s') by {
      forall u: nat | u < |s'.pcs| ensures PcOk(s'.dequeued, s'.done, s'.waitq, u, s'.pcs[u]) {
        PcOf(s, u);
      }
    }
    if a.Release? { ReleaseWakes(s); }
  }

  lemma ReleaseWakes(s: State)
    requires PcsOk(s)
    ensures (forall t: nat :: t < |s.pcs| ==> s.pcs[t].Out?) ==> forall t: nat :: t < |s.pcs| ==> t !in s.waitq
  {
    forall t: nat | t < |s.pcs| && s.pcs[t].Out? ensures t !in s.waitq { PcOf(s, t); }
  }

  lemma StepInv(s: State, a: Action)
    requires Inv(s)
    ensures Inv(Step(s, a))
  {
    hide Inv;
    match a
    case Read(_, _, _) => WaitStep(s, a);
    case TestEpt(_) => WaitStep(s, a);
    case JoinQueue(_, _) => WaitStep(s, a);
    case Leave(_, _) => WaitStep(s, a);
    case FinishWait(_) => WaitStep(s, a);
    case Retest(_) => WaitStep(s, a);
    case EvalQ(_) => CheckStep(s, a);
    case EvalE(_) => CheckStep(s, a);
    case EnterQueue(_) => DequeueStep(s, a);
    case Dequeue(_) => DequeueStep(s, a);
    case Copy(t, fault) => if t < |s.pcs| && s.pcs[t].Copying? { CopyStep(s, t, fault); }
    case Arrive(_, _) => OutsideStep(s, a);
    case CbWake => OutsideStep(s, a);
    case DestroyEpt => OutsideStep(s, a);
    case ClearEpt => OutsideStep(s, a);
    case DestroyWake => OutsideStep(s, a);
    case Release => OutsideStep(s, a);
  }

  lemma {:induction false} RunInv(s: State, acts: seq<Action>)
    requires Inv(s)
    ensures Inv(Run(s, acts))
    decreases |acts|
  {
    hide Inv, Step;
    if acts != [] {
      StepInv(s, acts[0]);
      RunInv(Step(s, acts[0]), acts[1..]);
    }
  }

  lemma Reached(s0: State, readers: nat, acts: seq<Action>)
    requires Init(s0, readers)
    ensures Inv(Run(s0, acts))
  {
    InitInv(s0, readers);
    RunInv(s0, acts);
  }

  // ----- theorems over runs -----

  /** The message a step gives to the callback, when the endpoint is there and memory suffices. */
  function Given(s: State, a: Action): seq<Msg> {
    if a.Arrive? && !a.noMem && s.life.Alive? then [a.msg] else []
  }

  /** The messages given to the callback during a run. */
  function Offered(s: State, acts: seq<Action>): seq<Msg>
    decreases |acts|
  {
    if acts == [] then [] else Given(s, acts[0]) + Offered(Step(s, acts[0]), acts[1..])
  }

  lemma StepArrivals(s: State, a: Action)
    ensures Step(s, a).arrivals == s.arrivals + Given(s, a)
  {
    hide Prefix;
    assert s.arrivals + [] == s.arrivals;
  }

  lemma {:induction false} ArrivalsExact(s: State, acts: seq<Action>)
    ensures Run(s, acts).arrivals == s.arrivals + Offered(s, acts)
    decreases |acts|
  {
    hide Step, Given;
    if acts == [] {
      assert s.arrivals + [] == s.arrivals;
    } else {
      var s1 := Step(s, acts[0]);
      StepArrivals(s, acts[0]);
      ArrivalsExact(s1, acts[1..]);
      assert s.arrivals + Given(s, acts[0]) + Offered(s1, acts[1..]) ==
             s.arrivals + (Given(s, acts[0]) + Offered(s1, acts[1..]));
    }
  }

  /**
   * First in, first out: at any time the messages given to the callback are, in order, those taken by readers,
   * those thrown away when the device was released, and those still queued; none is lost and none made up.
   */
  lemma QueueIsFifo(s0: State, readers: nat, acts: seq<Action>)
    requires Init(s0, readers)
    ensures var s := Run(s0, acts);
            && s.arrivals == Offered(s0, acts) == Msgs(s.dequeued) + s.discarded + s.queue
            && (!s.released ==> s.discarded == [])
  {
    Reached(s0, readers, acts);
    ArrivalsExact(s0, acts);
    assert [] + Offered(s0, acts) == Offered(s0, acts);
  }

  /** Reader `t` has taken the k-th message and not yet returned it. */
  predicate Copies(s: State, t: nat, k: nat) {
    t < |s.pcs| && s.pcs[t].Copying? && s.pcs[t].k == k
  }

  /** Every message taken is disposed of, or its reader still holds it. */
  ghost predicate TakenOk(s: State) {
    forall k: nat :: k < |s.dequeued| ==> Settled(s, k)
  }

  predicate Settled(s: State, k: nat) {
    k < |s.dequeued| && (k in s.done || Copies(s, s.dequeued[k].t, k))
  }

  lemma KeepsSettled(s: State, a: Action, k: nat)
    requires Settled(s, k)
    ensures Settled(Step(s, a), k)
  {
    hide Prefix, DoEvalQ, DoEvalE, DoJoin;
    if a.EvalQ? || a.EvalE? || a.JoinQueue? { WaitsSettled(s, a, k); }
  }

  lemma WaitsSettled(s: State, a: Action, k: nat)
    requires Settled(s, k) && (a.EvalQ? || a.EvalE? || a.JoinQueue?)
    ensures Settled(Step(s, a), k)
  {
    hide Prefix, DoEntry, DoDequeue, DoCopy;
  }

  /** At most one message is taken in a step, and its taker holds it. */
  lemma NewSettled(s: State, a: Action)
    ensures |s.dequeued| <= |Step(s, a).dequeued| <= |s.dequeued| + 1
    ensures |Step(s, a).dequeued| > |s.dequeued| ==> Settled(Step(s, a), |s.dequeued|)
  {
    hide Prefix;
  }

  lemma TakenStep(s: State, a: Action)
    requires TakenOk(s)
    ensures TakenOk(Step(s, a))
  {
    hide Step;
    NewSettled(s, a);
    forall k: nat | k < |Step(s, a).dequeued| ensures Settled(Step(s, a), k) {
      if k < |s.dequeued| { KeepsSettled(s, a, k); }
    }
  }

  lemma {:induction false} TakenRun(s: State, acts: seq<Action>)
    requires TakenOk(s)
    ensures TakenOk(Run(s, acts))
    decreases |acts|
  {
    hide TakenOk, Step;
    if acts != [] {
      TakenStep(s, acts[0]);
      TakenRun(Step(s, acts[0]), acts[1..]);
    }
  }

  /**
   * Each message taken is given to one reader: either that reader, and no other, still holds it, or exactly one
   * call returned having held it, and that call was the reader's.
   */
  lemma EachMessageOnce(s0: State, readers: nat, acts: seq<Action>, k: nat)
    requires Init(s0, readers)
    ensures var s := Run(s0, acts);
            && (forall t: nat, u: nat :: Copies(s, t, k) && Copies(s, u, k) ==> t == u)
            && (forall t: nat :: Copies(s, t, k) ==> k < |s.dequeued| && s.dequeued[k].t == t)
            && (k < |s.dequeued| ==> (k in s.done) != Copies(s, s.dequeued[k].t, k))
            && (k in s.done <==> exists i: nat :: i < |s.ended| && s.ended[i].from == Some(k))
            && (k in s.done ==> k < |s.dequeued| && s.done[k] < |s.ended| && s.ended[s.done[k]].t == s.dequeued[k].t)
  {
    var s := Run(s0, acts);
    Reached(s0, readers, acts);
    InitInv(s0, readers);
    TakenRun(s0, acts);
    forall t: nat | Copies(s, t, k) ensures k !in s.done && k < |s.dequeued| && s.dequeued[k].t == t {
      PcOf(s, t);
    }
    assert k < |s.dequeued| ==> Settled(s, k);
    if k in s.done { assert s.ended[s.done[k]].from == Some(k); }
  }

  /**
   * Of the calls that have returned, those with data, and those whose copy failed, each held a message of its
   * own; what it returned is that message's first min(count, len) bytes, or EFAULT. No other call has data.
   */
  lemma ReturnsExact(s0: State, readers: nat, acts: seq<Action>, i: nat, j: nat)
    requires Init(s0, readers) && i < |Run(s0, acts).ended| && j < |Run(s0, acts).ended|
    ensures var s := Run(s0, acts);
            var r := s.ended[i];
            && (r.ret.Data? ==> r.from.Some?)
            && (r.from.Some? ==> r.from.value < |s.arrivals|)
            && (r.from.Some? ==>
                  var m := s.arrivals[r.from.value];
                  r.ret == Err(-14) || r.ret == Data(m[..if r.count < |m| then r.count else |m|]))
            && (r.from.Some? && r.from == s.ended[j].from ==> i == j)
  {
    var s := Run(s0, acts);
    Reached(s0, readers, acts);
    if s.ended[i].from.Some? { assert Msgs(s.dequeued)[s.ended[i].from.value] == s.arrivals[s.ended[i].from.value]; }
  }

  /** Between two states, the call of reader `t` ended and its return was logged, or neither. */
  predicate Logged(before: Pc, after: Pc, t: nat, was: seq<Returned>, now: seq<Returned>) {
    if !before.Out? && after.Out? then
      |now| == |was| + 1 && was <= now && now[|was|].t == t && now[|was|].count == before.count
    else
      now == was || (|now| == |was| + 1 && now[|was|].t != t)
  }

  lemma WaitLogged(s: State, a: Action, t: nat)
    requires t < |s.pcs| && (a.EvalQ? || a.EvalE? || a.JoinQueue? || a.Leave? || a.FinishWait? || a.Read?)
    ensures t < |Step(s, a).pcs| && Logged(s.pcs[t], Step(s, a).pcs[t], t, s.ended, Step(s, a).ended)
  {
    hide Prefix, DoEntry, DoDequeue, DoCopy;
  }

  lemma TestLogged(s: State, a: Action, t: nat)
    requires t < |s.pcs| && (a.TestEpt? || a.Retest?)
    ensures t < |Step(s, a).pcs| && Logged(s.pcs[t], Step(s, a).pcs[t], t, s.ended, Step(s, a).ended)
  {
    hide DoEntry, DoDequeue, DoCopy, DoEvalQ, DoEvalE, DoJoin;
  }

  lemma TakeLogged(s: State, a: Action, t: nat)
    requires t < |s.pcs| && (a.EnterQueue? || a.Dequeue? || a.Copy?)
    ensures t < |Step(s, a).pcs| && Logged(s.pcs[t], Step(s, a).pcs[t], t, s.ended, Step(s, a).ended)
  {
    hide Prefix, DoEvalQ, DoEvalE, DoJoin;
  }

  /** The log is complete: it grows by one entry exactly when a reader's call ends, and by that call's. */
  lemma EveryReturnLogged(s: State, a: Action, t: nat)
    requires t < |s.pcs|
    ensures t < |Step(s, a).pcs| && Logged(s.pcs[t], Step(s, a).pcs[t], t, s.ended, Step(s, a).ended)
  {
    if a.EvalQ? || a.EvalE? || a.JoinQueue? || a.Leave? || a.FinishWait? || a.Read? {
      WaitLogged(s, a, t);
    } else if a.TestEpt? || a.Retest? {
      TestLogged(s, a, t);
    } else if a.EnterQueue? || a.Dequeue? || a.Copy? {
      TakeLogged(s, a, t);
    } else {
      hide Logged;
      OutsideLogged(s, a, t);
    }
  }

  lemma OutsideLogged(s: State, a: Action, t: nat)
    requires t < |s.pcs| && Outside(a)
    ensures t < |Step(s, a).pcs| && Logged(s.pcs[t], Step(s, a).pcs[t], t, s.ended, Step(s, a).ended)
  {
  }

  /** Where a call ends, and why: there is no endpoint, nothing to read, or a signal while the endpoint is there. */
  ghost predicate Ends(s: State, a: Action, t: nat)
    requires t < |s.pcs|
  {
    match s.pcs[t]
    case Start(_, _) => a == TestEpt(t) && !s.ept
    case Woke(_) => a == Retest(t) && !s.ept
    case Entry(_, nonblock) => a == EnterQueue(t) && s.queue == [] && nonblock
    case CheckE(_, signalled) => a == EvalE(t) && s.ept && signalled
    case Grab(_) => a == Dequeue(t) && s.queue == []
    case Copying(_, _) => a.Copy? && a.t == t
    case _ => false
  }

  predicate Answers(pc: Pc, ret: Ret) {
    if pc.Start? || pc.Woke? then ret == Err(-32)
    else if pc.Entry? then ret == Err(-11)
    else if pc.CheckE? then ret == Err(-512)
    else if pc.Grab? then ret == Err(-14)
    else ret == Err(-14) || ret.Data?
  }

  ghost predicate EndsRight(s: State, s': State, a: Action, t: nat)
    requires t < |s.pcs|
  {
    && |s'.pcs| == |s.pcs| && (s'.pcs[t].Out? <==> Ends(s, a, t))
    && (Ends(s, a, t) ==> |s'.ended| == |s.ended| + 1 && Answers(s.pcs[t], s'.ended[|s.ended|].ret))
  }

  lemma CopyEnds(s: State, a: Action, t: nat)
    requires t < |s.pcs| && !s.pcs[t].Out? && a.Copy?
    ensures EndsRight(s, Step(s, a), a, t)
  {
    hide Prefix, DoEvalE, DoEvalQ, DoJoin, DoEntry, DoDequeue;
  }

  lemma TakeEnds(s: State, a: Action, t: nat)
    requires t < |s.pcs| && !s.pcs[t].Out? && (a.EnterQueue? || a.Dequeue?)
    ensures EndsRight(s, Step(s, a), a, t)
  {
    hide Prefix, DoEvalE, DoEvalQ, DoJoin, DoCopy;
  }

  lemma WaitEnds(s: State, a: Action, t: nat)
    requires t < |s.pcs| && !s.pcs[t].Out? && (a.EvalE? || a.EvalQ? || a.JoinQueue?)
    ensures EndsRight(s, Step(s, a), a, t)
  {
    hide DoEntry, DoDequeue, DoCopy;
  }

  lemma OtherEnds(s: State, a: Action, t: nat)
    requires t < |s.pcs| && !s.pcs[t].Out?
    requires !a.Copy? && !a.EnterQueue? && !a.Dequeue? && !a.EvalE? && !a.EvalQ? && !a.JoinQueue?
    ensures EndsRight(s, Step(s, a), a, t)
  {
    hide DoEntry, DoDequeue, DoCopy, DoEvalE, DoEvalQ, DoJoin;
  }

  /** A call ends exactly there, with the error that belongs to the place; a condition met outweighs a signal. */
  lemma EndsExact(s: State, a: Action, t: nat)
    requires t < |s.pcs| && !s.pcs[t].Out?
    ensures var s' := Step(s, a);
            && |s'.pcs| == |s.pcs| && (s'.pcs[t].Out? <==> Ends(s, a, t))
            && (Ends(s, a, t) ==> |s'.ended| == |s.ended| + 1 && Answers(s.pcs[t], s'.ended[|s.ended|].ret))
  {
    hide Step, Ends, Answers;
    if a.Copy? {
      CopyEnds(s, a, t);
    } else if a.EnterQueue? || a.Dequeue? {
      TakeEnds(s, a, t);
    } else if a.EvalE? || a.EvalQ? || a.JoinQueue? {
      WaitEnds(s, a, t);
    } else {
      OtherEnds(s, a, t);
    }
  }

  /**
   * No lost wake-up: a sleeping reader has nothing to read and its endpoint is there, or a callback or the
   * destroyer has changed that and has not yet made its wake-up call.
   */
  lemma NoLostReaderWakeup(s0: State, readers: nat, acts: seq<Action>, t: nat)
    requires Init(s0, readers)
    ensures var s := Run(s0, acts);
            Asleep(s, t) ==> (s.queue == [] || s.owed > 0) && (s.ept || s.life.EptGone?)
  {
    Reached(s0, readers, acts);
  }

  // ----- an empty queue after waiting -----

  /** With one reader, whatever made its condition true is still there when it looks again. */
  ghost predicate Sole(s: State) {
    && |s.pcs| == 1
    && (s.pcs[0].Fin? || s.pcs[0].Woke? ==> s.queue != [] || !s.ept)
    && (s.pcs[0].Grab? ==> s.queue != [])
  }

  predicate Outside(a: Action) {
    a.Arrive? || a.CbWake? || a.DestroyEpt? || a.ClearEpt? || a.DestroyWake? || a.Release?
  }

  lemma SoleOutside(s: State, a: Action)
    requires Inv(s) && Sole(s) && Outside(a)
    ensures Sole(Step(s, a))
  {
    hide PcsOk, LogOk, DoneOk, WakeOk, DoEntry, DoEvalQ, DoEvalE, DoJoin, DoDequeue, DoCopy;
  }

  lemma SoleReader(s: State, a: Action)
    requires Inv(s) && Sole(s) && !Outside(a)
    ensures Sole(Step(s, a))
  {
    hide PcsOk, LogOk, DoneOk, WakeOk, LifeOk, Prefix;
  }

  lemma SoleStep(s: State, a: Action)
    requires Inv(s) && Sole(s)
    ensures Sole(Step(s, a))
  {
    hide Inv, Sole, Step;
    if Outside(a) { SoleOutside(s, a); } else { SoleReader(s, a); }
  }

  lemma {:induction false} SoleRun(s: State, acts: seq<Action>)
    requires Inv(s) && Sole(s)
    ensures Sole(Run(s, acts))
    decreases |acts|
  {
    hide Inv, Sole, Step;
    if acts != [] {
      StepInv(s, acts[0]);
      SoleStep(s, acts[0]);
      SoleRun(Step(s, acts[0]), acts[1..]);
    }
  }

  /** A reader about to take a message after waiting, with none there: its read fails with EFAULT. */
  predicate FindsEmpty(s: State) {
    exists t: nat :: t < |s.pcs| && s.pcs[t].Grab? && s.queue == []
  }

  lemma {:induction false} RunAppend(s: State, a: seq<Action>, b: seq<Action>)
    ensures Run(s, a + b) == Run(Run(s, a), b)
    decreases |a|
  {
    hide Step;
    if a == [] {
      assert a + b == b;
    } else {
      assert (a + b)[1..] == a[1..] + b;
      RunAppend(Step(s, a[0]), a[1..], b);
    }
  }

  /** A run from its intermediate states. */
  lemma {:induction false} RunThrough(acts: seq<Action>, states: seq<State>)
    requires |states| == |acts| + 1 && forall i: nat :: i < |acts| ==> Step(states[i], acts[i]) == states[i + 1]
    ensures Run(states[0], acts) == states[|acts|]
    decreases |acts|
  {
    hide Step;
    if acts != [] {
      forall i: nat | i < |acts[1..]| ensures Step(states[1..][i], acts[1..][i]) == states[1..][i + 1] {
        assert Step(states[i + 1], acts[i + 1]) == states[i + 2];
      }
      RunThrough(acts[1..], states[1..]);
    }
  }

  function At(s: State, t: nat, pc: Pc, waitq: set<nat>): State
    requires t < |s.pcs|
  {
    s.(pcs := s.pcs[t := pc], waitq := waitq)
  }

  lemma AtTwice(s: State, t: nat, pc: Pc, q: set<nat>, pc': Pc, q': set<nat>)
    requires t < |s.pcs|
    ensures At(At(s, t, pc, q), t, pc', q') == At(s, t, pc', q')
  {
    assert s.pcs[t := pc][t := pc'] == s.pcs[t := pc'];
  }

  lemma FastEStep(s: State, t: nat, n: nat)
    requires t < |s.pcs| && s.pcs[t] == FastE(n) && s.ept
    ensures Step(s, EvalE(t)) == At(s, t, Join(n), s.waitq)
  {
  }

  lemma JoinStep(s: State, t: nat, n: nat, signal: bool)
    requires t < |s.pcs| && s.pcs[t] == Join(n)
    ensures Step(s, JoinQueue(t, signal)) ==
            At(s, t, CheckQ(n, signal), if signal then s.waitq - {t} else s.waitq + {t})
  {
  }

  lemma CheckQStep(s: State, t: nat, n: nat, signal: bool)
    requires t < |s.pcs| && s.pcs[t] == CheckQ(n, signal)
    ensures Step(s, EvalQ(t)) == At(s, t, if s.queue != [] then Fin(n) else CheckE(n, signal), s.waitq)
  {
  }

  lemma CheckEStep(s: State, t: nat, n: nat)
    requires t < |s.pcs| && s.pcs[t] == CheckE(n, false)
    ensures Step(s, EvalE(t)) == At(s, t, if s.ept then Sched(n) else Fin(n), s.waitq)
  {
  }

  lemma LeaveStep(s: State, t: nat, n: nat)
    requires t < |s.pcs| && s.pcs[t] == Sched(n) && t !in s.waitq
    ensures Step(s, Leave(t, false)) == At(s, t, Join(n), s.waitq)
  {
  }

  /** From joining the queue to the check that finds no message. */
  lemma JoinsEffect(s: State, t: nat, n: nat, signal: bool)
    requires t < |s.pcs| && s.pcs[t] == Join(n)
    ensures var q := if signal then s.waitq - {t} else s.waitq + {t};
            && Step(s, JoinQueue(t, signal)) == At(s, t, CheckQ(n, signal), q)
            && Step(At(s, t, CheckQ(n, signal), q), EvalQ(t)) ==
               At(s, t, if s.queue != [] then Fin(n) else CheckE(n, signal), q)
  {
    hide Step;
    var q := if signal then s.waitq - {t} else s.waitq + {t};
    JoinStep(s, t, n, signal);
    CheckQStep(At(s, t, CheckQ(n, signal), q), t, n, signal);
    AtTwice(s, t, CheckQ(n, signal), q, if s.queue != [] then Fin(n) else CheckE(n, signal), q);
  }

  function Tries(t: nat, n: nat): seq<Action> {
    [Read(t, n, false), TestEpt(t), EnterQueue(t), EvalQ(t)]
  }

  function Dozes(t: nat): seq<Action> {
    [EvalE(t), JoinQueue(t, false), EvalQ(t), EvalE(t)]
  }

  /** A reader that finds nothing and falls asleep. */
  function Blocks(t: nat, n: nat): seq<Action> {
    Tries(t, n) + Dozes(t)
  }

  lemma TriesEffect(s: State, t: nat, n: nat)
    requires t < |s.pcs| && s.pcs[t].Out? && s.ept && !s.released && s.queue == []
    ensures Run(s, Tries(t, n)) == At(s, t, FastE(n), s.waitq)
  {
    var q := s.waitq;
    var states := [s, At(s, t, Start(n, false), q), At(s, t, Entry(n, false), q),
                   At(s, t, FastQ(n), q), At(s, t, FastE(n), q)];
    assert Step(states[0], Tries(t, n)[0]) == states[1];
    assert Step(states[1], Tries(t, n)[1]) == states[2];
    assert Step(states[2], Tries(t, n)[2]) == states[3];
    assert Step(states[3], Tries(t, n)[3]) == states[4];
    hide Step;
    RunThrough(Tries(t, n), states);
  }

  lemma DozesEffect(s: State, t: nat, n: nat)
    requires t < |s.pcs| && s.pcs[t] == FastE(n) && s.ept && s.queue == []
    ensures Run(s, Dozes(t)) == At(s, t, Sched(n), s.waitq + {t})
  {
    hide Step, Run;
    var q := s.waitq + {t};
    var s1, s3, s4 := At(s, t, Join(n), s.waitq), At(s, t, CheckE(n, false), q), At(s, t, Sched(n), q);
    FastEStep(s, t, n);
    JoinsEffect(s1, t, n, false);
    AtTwice(s, t, Join(n), s.waitq, CheckE(n, false), q);
    CheckEStep(s3, t, n);
    AtTwice(s, t, CheckE(n, false), q, Sched(n), q);
    RunThrough(Dozes(t), [s, s1, At(s1, t, CheckQ(n, false), q), s3, s4]);
  }

  lemma BlocksEffect(s: State, t: nat, n: nat)
    requires t < |s.pcs| && s.pcs[t].Out? && s.ept && !s.released && s.queue == []
    ensures Run(s, Blocks(t, n)) == At(s, t, Sched(n), s.waitq + {t})
  {
    hide Run, Tries, Dozes;
    TriesEffect(s, t, n);
    DozesEffect(At(s, t, FastE(n), s.waitq), t, n);
    RunAppend(s, Tries(t, n), Dozes(t));
  }

  function Rises(t: nat): seq<Action> {
    [Leave(t, false), JoinQueue(t, false), EvalQ(t)]
  }

  function Returns(t: nat): seq<Action> {
    [FinishWait(t), Retest(t)]
  }

  /** A woken reader that sees a message and is about to take it. */
  function Wakes(t: nat): seq<Action> {
    Rises(t) + Returns(t)
  }

  lemma RisesEffect(s: State, t: nat, n: nat)
    requires t < |s.pcs| && s.pcs[t] == Sched(n) && t !in s.waitq && s.queue != []
    ensures Run(s, Rises(t)) == At(s, t, Fin(n), s.waitq + {t})
  {
    hide Step, Run;
    var q := s.waitq + {t};
    var s1, s3 := At(s, t, Join(n), s.waitq), At(s, t, Fin(n), q);
    LeaveStep(s, t, n);
    JoinsEffect(s1, t, n, false);
    AtTwice(s, t, Join(n), s.waitq, Fin(n), q);
    RunThrough(Rises(t), [s, s1, At(s1, t, CheckQ(n, false), q), s3]);
  }

  lemma ReturnSteps(s: State, t: nat, n: nat)
    requires t < |s.pcs| && s.pcs[t] == Fin(n) && s.ept
    ensures Step(s, FinishWait(t)) == At(s, t, Woke(n), s.waitq - {t})
    ensures Step(At(s, t, Woke(n), s.waitq - {t}), Retest(t)) == At(s, t, Grab(n), s.waitq - {t})
  {
    assert s.pcs[t := Woke(n)][t := Grab(n)] == s.pcs[t := Grab(n)];
  }

  lemma ReturnsEffect(s: State, t: nat, n: nat)
    requires t < |s.pcs| && s.pcs[t] == Fin(n) && s.ept
    ensures Run(s, Returns(t)) == At(s, t, Grab(n), s.waitq - {t})
  {
    hide Step, Run;
    ReturnSteps(s, t, n);
    RunThrough(Returns(t), [s, At(s, t, Woke(n), s.waitq - {t}), At(s, t, Grab(n), s.waitq - {t})]);
  }

  lemma WakesEffect(s: State, t: nat, n: nat)
    requires t < |s.pcs| && s.pcs[t] == Sched(n) && t !in s.waitq && s.ept && s.queue != []
    ensures Run(s, Wakes(t)) == At(s, t, Grab(n), s.waitq)
  {
    hide Run, Rises, Returns;
    RisesEffect(s, t, n);
    ReturnsEffect(At(s, t, Fin(n), s.waitq + {t}), t, n);
    RunAppend(s, Rises(t), Returns(t));
    assert s.waitq + {t} - {t} == s.waitq;
  }

  function Delivery(m: Msg): seq<Action> {
    [Arrive(m, false), CbWake]
  }

  /** One callback: the message is queued last and the readers are woken, or, without memory, nothing happens. */
  lemma DeliveryEffect(s: State, m: Msg)
    requires s.life.Alive?
    ensures Run(s, Delivery(m)) == s.(queue := s.queue + [m], arrivals := s.arrivals + [m], waitq := {})
    ensures Step(s, Arrive(m, true)) == s
  {
    var s1 := s.(queue := s.queue + [m], arrivals := s.arrivals + [m], owed := s.owed + 1);
    var s2 := s.(queue := s.queue + [m], arrivals := s.arrivals + [m], waitq := {});
    hide Run;
    assert Step(s, Arrive(m, false)) == s1 && Step(s, Arrive(m, true)) == s;
    assert Step(s1, CbWake) == s2;
    hide Step;
    RunThrough(Delivery(m), [s, s1, s2]);
  }

  /** Two readers fall asleep, one message wakes both, and the first takes it. */
  function Race(): seq<Action> {
    Blocks(0, 1) + (Blocks(1, 1) + (Delivery([7]) + (Wakes(0) + (Wakes(1) + [Dequeue(0)]))))
  }

  lemma RaceFindsEmpty(s0: State, readers: nat)
    requires Init(s0, readers) && readers >= 2
    ensures FindsEmpty(Run(s0, Race()))
  {
    hide Step, Run, Blocks, Wakes, Delivery;
    BlocksEffect(s0, 0, 1);
    var s1 := At(s0, 0, Sched(1), s0.waitq + {0});
    BlocksEffect(s1, 1, 1);
    var s2 := At(s1, 1, Sched(1), s1.waitq + {1});
    DeliveryEffect(s2, [7]);
    var s3 := Run(s2, Delivery([7]));
    WakesEffect(s3, 0, 1);
    var s4 := At(s3, 0, Grab(1), {});
    WakesEffect(s4, 1, 1);
    var s5 := At(s4, 1, Grab(1), {});
    LastTake(s5);
    RunAppend(s4, Wakes(1), [Dequeue(0)]);
    RunAppend(s3, Wakes(0), Wakes(1) + [Dequeue(0)]);
    RunAppend(s2, Delivery([7]), Wakes(0) + (Wakes(1) + [Dequeue(0)]));
    RunAppend(s1, Blocks(1, 1), Delivery([7]) + (Wakes(0) + (Wakes(1) + [Dequeue(0)])));
    RunAppend(s0, Blocks(0, 1), Blocks(1, 1) + (Delivery([7]) + (Wakes(0) + (Wakes(1) + [Dequeue(0)]))));
  }

  lemma LastTake(s: State)
    requires |s.pcs| >= 2 && s.pcs[0].Grab? && s.pcs[1].Grab? && |s.queue| == 1
    ensures FindsEmpty(Run(s, [Dequeue(0)]))
  {
    var s' := Step(s, Dequeue(0));
    RunThrough([Dequeue(0)], [s, s']);
    assert s'.pcs[1].Grab? && s'.queue == [];
  }

  /**
   * A blocking read never fails for want of a message it was woken for exactly when the device has at
   * most one reader: with two, both are woken by one message and the second is told EFAULT.
   */
  lemma NeverEmptyIffSoleReader(s0: State, readers: nat)
    requires Init(s0, readers)
    ensures (forall acts :: !FindsEmpty(Run(s0, acts))) <==> readers <= 1
  {
    hide Run, Step, Inv;
    if readers >= 2 {
      RaceFindsEmpty(s0, readers);
    } else {
      forall acts ensures !FindsEmpty(Run(s0, acts)) { AtMostOne(s0, readers, acts); }
    }
  }

  lemma AtMostOne(s0: State, readers: nat, acts: seq<Action>)
    requires Init(s0, readers) && readers <= 1
    ensures !FindsEmpty(Run(s0, acts))
  {
    InitInv(s0, readers);
    hide Run, Inv;
    if readers == 1 {
      assert Sole(s0);
      hide Init;
      SoleRun(s0, acts);
    } else {
      NoReaders(s0, acts);
    }
  }

  lemma {:induction false} NoReaders(s: State, acts: seq<Action>)
    requires s.pcs == []
    ensures Run(s, acts).pcs == []
    decreases |acts|
  {
    if acts != [] { NoReaders(Step(s, acts[0]), acts[1..]); }
  }
}

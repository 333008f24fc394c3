/**
 * The endpoint character device: messages queued by the endpoint's callback, any number of blocking
 * readers, and the endpoint going away. Regions under `queue_lock` are one step; the wait condition
 * reads the queue and the endpoint in two steps.
 */
module CharReader {
  import opened Common

  type Msg = seq<byte>

  datatype Ret = Data(bytes: Msg) | Err(errno: int)

  /** Where a reader is inside `rpmsg_eptdev_read_iter`; `count` is the size of its buffer. */
  datatype Pc =
    | Out
    | Start(count: nat, nonblock: bool)  // about to test the endpoint
    | Entry(count: nat, nonblock: bool)  // about to lock the queue
    | FastQ(count: nat)                  // the condition, before joining the wait queue
    | FastE(count: nat)
    | Join(count: nat)
    | CheckQ(count: nat, signalled: bool)
    | CheckE(count: nat, signalled: bool)
    | Sched(count: nat)
    | Fin(count: nat)                    // leaving the wait queue
    | Woke(count: nat)
    | Grab(count: nat)
    | Copying(count: nat, k: nat)        // holds the k-th dequeued message

  datatype Deq = Deq(t: nat, msg: Msg)

  /** One call's return: who, with what buffer size, what, and the index of the message it held, if any. */
  datatype Returned = Returned(t: nat, count: nat, ret: Ret, from: Option<nat>)

  /** How far the destruction of the endpoint has got. */
  datatype Life = Alive | CbGone | EptGone | Woken

  /**
   * `owed` counts callbacks that queued a message and have not yet woken the readers. `arrivals`,
   * `dequeued`, `discarded` and `ended` are logs; `done` gives, by index of the message, which return
   * disposed of it.
   */
  datatype State = State(
    ept: bool,
    life: Life,
    released: bool,
    queue: seq<Msg>,
    waitq: set<nat>,
    owed: nat,
    pcs: seq<Pc>,
    arrivals: seq<Msg>,
    dequeued: seq<Deq>,
    discarded: seq<Msg>,
    ended: seq<Returned>,
    done: map<nat, nat>)

  datatype Action =
    | Read(t: nat, count: nat, nonblock: bool)
    | TestEpt(t: nat)
    | EnterQueue(t: nat)
    | EvalQ(t: nat)
    | EvalE(t: nat)
    | JoinQueue(t: nat, signal: bool)
    | Leave(t: nat, signal: bool)
    | FinishWait(t: nat)
    | Retest(t: nat)
    | Dequeue(t: nat)
    | Copy(t: nat, fault: bool)
    | Arrive(msg: Msg, noMem: bool)
    | CbWake
    | DestroyEpt
    | ClearEpt
    | DestroyWake
    | Release

  /** Just opened, with `readers` contexts that may read. */
  predicate Init(s: State, readers: nat) {
    && s.ept && s.life.Alive? && !s.released && s.queue == [] && s.waitq == {} && s.owed == 0
    && |s.pcs| == readers && (forall t :: 0 <= t < readers ==> s.pcs[t].Out?)
    && s.arrivals == [] && s.dequeued == [] && s.discarded == []
    && s.ended == [] && s.done == map[]
  }

  function Goto(s: State, t: nat, pc: Pc): State
    requires t < |s.pcs|
  {
    s.(pcs := s.pcs[t := pc])
  }

  /** The call ends; `from` is the message it held. */
  function Leaves(s: State, t: nat, r: Ret, from: Option<nat>): State
    requires t < |s.pcs| && !s.pcs[t].Out?
  {
    Goto(s, t, Out).(ended := s.ended + [Returned(t, s.pcs[t].count, r, from)])
  }

  function Return(s: State, t: nat, r: Ret): State
    requires t < |s.pcs| && !s.pcs[t].Out?
  {
    Leaves(s, t, r, None)
  }

  function TakeFirst(s: State, t: nat, count: nat): State
    requires t < |s.pcs| && s.queue != []
  {
    Goto(s.(queue := s.queue[1..], dequeued := s.dequeued + [Deq(t, s.queue[0])]), t, Copying(count, |s.dequeued|))
  }

  function DoEntry(s: State, t: nat): State
    requires t < |s.pcs| && s.pcs[t].Entry?
  {
    var pc := s.pcs[t];
    if s.queue != [] then TakeFirst(s, t, pc.count)
    else if pc.nonblock then Return(s, t, Err(EAGAIN))
    else Goto(s, t, FastQ(pc.count))
  }

  function DoEvalQ(s: State, t: nat): State
    requires t < |s.pcs| && (s.pcs[t].FastQ? || s.pcs[t].CheckQ?)
  {
    var pc := s.pcs[t];
    if pc.FastQ? then Goto(s, t, if s.queue != [] then Woke(pc.count) else FastE(pc.count))
    else Goto(s, t, if s.queue != [] then Fin(pc.count) else CheckE(pc.count, pc.signalled))
  }

  function DoEvalE(s: State, t: nat): State
    requires t < |s.pcs| && (s.pcs[t].FastE? || s.pcs[t].CheckE?)
  {
    var pc := s.pcs[t];
    if pc.FastE? then Goto(s, t, if !s.ept then Woke(pc.count) else Join(pc.count))
    else if !s.ept then Goto(s, t, Fin(pc.count))
    else if pc.signalled then Return(s, t, Err(ERESTARTSYS))
    else Goto(s, t, Sched(pc.count))
  }

  function DoJoin(s: State, t: nat, signal: bool): State
    requires t < |s.pcs| && s.pcs[t].Join?
  {
    Goto(s.(waitq := if signal then s.waitq - {t} else s.waitq + {t}), t, CheckQ(s.pcs[t].count, signal))
  }

  function DoDequeue(s: State, t: nat): State
    requires t < |s.pcs| && s.pcs[t].Grab?
  {
    if s.queue == [] then Return(s, t, Err(EFAULT)) else TakeFirst(s, t, s.pcs[t].count)
  }

  /** The first `count` bytes, or the whole message when it is shorter. */
  function Prefix(m: Msg, count: nat): Msg {
    if count < |m| then m[..count] else m
  }

  function DoCopy(s: State, t: nat, fault: bool): State
    requires t < |s.pcs| && s.pcs[t].Copying?
  {
    var pc := s.pcs[t];
    var ret := if fault || pc.k >= |s.dequeued| then Err(EFAULT) else Data(Prefix(s.dequeued[pc.k].msg, pc.count));
    Leaves(s.(done := s.done[pc.k := |s.ended|]), t, ret, Some(pc.k))
  }

  function Step(s: State, a: Action): State {
    match a
    case Read(t, count, nonblock) =>
      if t < |s.pcs| && s.pcs[t].Out? && !s.released then Goto(s, t, Start(count, nonblock)) else s
    case TestEpt(t) =>
      if t < |s.pcs| && s.pcs[t].Start? then
        if !s.ept then Return(s, t, Err(EPIPE)) else Goto(s, t, Entry(s.pcs[t].count, s.pcs[t].nonblock))
      else s
    case EnterQueue(t) => if t < |s.pcs| && s.pcs[t].Entry? then DoEntry(s, t) else s
    case EvalQ(t) => if t < |s.pcs| && (s.pcs[t].FastQ? || s.pcs[t].CheckQ?) then DoEvalQ(s, t) else s
    case EvalE(t) => if t < |s.pcs| && (s.pcs[t].FastE? || s.pcs[t].CheckE?) then DoEvalE(s, t) else s
    case JoinQueue(t, signal) => if t < |s.pcs| && s.pcs[t].Join? then DoJoin(s, t, signal) else s
    case Leave(t, signal) =>
      if t < |s.pcs| && s.pcs[t].Sched? && (signal || t !in s.waitq) then Goto(s, t, Join(s.pcs[t].count)) else s
    case FinishWait(t) =>
      if t < |s.pcs| && s.pcs[t].Fin? then Goto(s.(waitq := s.waitq - {t}), t, Woke(s.pcs[t].count)) else s
    case Retest(t) =>
      if t < |s.pcs| && s.pcs[t].Woke? then
        if !s.ept then Return(s, t, Err(EPIPE)) else Goto(s, t, Grab(s.pcs[t].count))
      else s
    case Dequeue(t) => if t < |s.pcs| && s.pcs[t].Grab? then DoDequeue(s, t) else s
    case Copy(t, fault) => if t < |s.pcs| && s.pcs[t].Copying? then DoCopy(s, t, fault) else s
    case Arrive(msg, noMem) =>
      if s.life.Alive? && !noMem then
        s.(queue := s.queue + [msg], arrivals := s.arrivals + [msg], owed := s.owed + 1)
      else s
    case CbWake => if s.owed > 0 then s.(waitq := {}, owed := s.owed - 1) else s
    case DestroyEpt => if s.life.Alive? then s.(life := CbGone) else s
    case ClearEpt => if s.life.CbGone? then s.(life := EptGone, ept := false) else s
    case DestroyWake => if s.life.EptGone? then s.(life := Woken, waitq := {}) else s
    case Release =>
      if !s.released && !s.life.CbGone? && (forall t: nat :: t < |s.pcs| ==> s.pcs[t].Out?) then
        s.(released := true, ept := false, life := if s.life.Alive? then Woken else s.life,
           queue := [], discarded := s.queue)
      else s
  }

  function Run(s: State, acts: seq<Action>): State
    decreases |acts|
  {
    if acts == [] then s else Run(Step(s, acts[0]), acts[1..])
  }

  predicate Asleep(s: State, t: nat) {
    t < |s.pcs| && s.pcs[t].Sched? && t in s.waitq
  }

  // ----- the invariant -----

  function Msgs(d: seq<Deq>): (r: seq<Msg>)
    ensures |r| == |d|
  {
    seq(|d|, i requires 0 <= i < |d| => d[i].msg)
  }

  ghost predicate LogOk(s: State) {
    && s.arrivals == Msgs(s.dequeued) + s.discarded + s.queue
    && (!s.released ==> s.discarded == [])
    && (s.released ==> s.queue == [] && !s.life.Alive?)
  }

  ghost predicate PcOk(dequeued: seq<Deq>, done: map<nat, nat>, waitq: set<nat>, t: nat, pc: Pc) {
    && (pc.Copying? ==> pc.k < |dequeued| && dequeued[pc.k].t == t && pc.k !in done)
    && (t in waitq ==> pc.CheckQ? || pc.CheckE? || pc.Sched? || pc.Join? || pc.Fin?)
    && (pc.CheckE? && pc.signalled ==> t !in waitq)
    && (pc.CheckQ? && pc.signalled ==> t !in waitq)
  }

  ghost predicate PcsOk(s: State) {
    forall t: nat :: t < |s.pcs| ==> PcOk(s.dequeued, s.done, s.waitq, t, s.pcs[t])
  }

  /** What a call that held a message may return. */
  predicate Fits(r: Returned, m: Msg) {
    r.ret == Err(EFAULT) || r.ret == Data(Prefix(m, r.count))
  }

  /** Disposed messages and the returns that held one are in step; only those returns carry data. */
  ghost predicate DoneOk(dequeued: seq<Deq>, ended: seq<Returned>, done: map<nat, nat>) {
    && (forall k :: k in done ==>
          && k < |dequeued| && done[k] < |ended| && ended[done[k]].from == Some(k)
          && ended[done[k]].t == dequeued[k].t && Fits(ended[done[k]], dequeued[k].msg))
    && (forall i: nat :: i < |ended| && ended[i].from.Some? ==>
          ended[i].from.value in done && done[ended[i].from.value] == i)
    && (forall i: nat :: i < |ended| && ended[i].ret.Data? ==> ended[i].from.Some?)
  }

  /** No message for it, or a wake-up for the message owed. */
  predicate QueueCovered(s: State) {
    s.queue == [] || s.owed > 0
  }

  predicate EptCovered(s: State) {
    s.ept || s.life.EptGone?
  }

  ghost predicate WakeOk(s: State) {
    forall t: nat :: t < |s.pcs| && t in s.waitq ==>
      (s.pcs[t].CheckE? || s.pcs[t].Sched? ==> QueueCovered(s)) && (s.pcs[t].Sched? ==> EptCovered(s))
  }

  ghost predicate LifeOk(s: State) {
    s.ept <==> s.life.Alive? || s.life.CbGone?
  }

  ghost predicate Inv(s: State) {
    LogOk(s) && PcsOk(s) && DoneOk(s.dequeued, s.ended, s.done) && WakeOk(s) && LifeOk(s)
  }
}

/**
 * Transmission as a concurrent protocol: any number of senders, the remote processor and the
 * tx-complete interrupt. Regions under `tx_lock` are one step; waiting is split into joining the wait
 * queue, checking, and sleeping, as the kernel's wait_event macro does.
 */
module TxMachine {
  import opened Common
  import opened Wire

  /** What a descriptor of the available ring refers to: a buffer slot and the length to transmit. */
  datatype Token = Token(slot: nat, len: nat)

  /**
   * The fields of the bus that `tx_lock` protects, with the tx virtqueue: free descriptors, the
   * available ring in order, the buffers the device holds, the used ring in order, and the flag that
   * asks the device for interrupts. `sbufs` has one 512-byte buffer per slot.
   */
  datatype Pool = Pool(
    lastSbuf: nat,
    sleepers: int,
    cbOn: bool,
    numFree: int,
    avail: seq<Token>,
    inDev: set<nat>,
    used: seq<nat>,
    sbufs: seq<seq<byte>>)

  /** num_bufs / 2 for the given rx ring size. */
  function NumSlots(rxRing: nat): (n: nat)
    ensures n <= rxRing && n <= 256 && (n == rxRing || n == 256)
  {
    if rxRing < 256 then rxRing else 256
  }

  /** Pick the next slot never handed out, or else recycle a used one. */
  function GetTxBuf(p: Pool): (Pool, Option<nat>) {
    if p.lastSbuf < |p.sbufs| then (p.(lastSbuf := p.lastSbuf + 1), Some(p.lastSbuf))
    else if p.used == [] then (p, None)
    else (p.(used := p.used[1..], numFree := p.numFree + 1), Some(p.used[0]))
  }

  function UprefSleepers(p: Pool): Pool {
    p.(sleepers := p.sleepers + 1, cbOn := if p.sleepers + 1 == 1 then true else p.cbOn)
  }

  function DownrefSleepers(p: Pool): Pool {
    p.(sleepers := p.sleepers - 1, cbOn := if p.sleepers - 1 == 0 then false else p.cbOn)
  }

  function WriteHeader(p: Pool, slot: nat, r: Req): Pool
    requires slot < |p.sbufs| && |p.sbufs[slot]| == BUF_SIZE
  {
    p.(sbufs := p.sbufs[slot := Encode(HeaderOf(r)) + p.sbufs[slot][HDR_SIZE..]])
  }

  function WritePayload(p: Pool, slot: nat, r: Req): Pool
    requires slot < |p.sbufs| && |p.sbufs[slot]| == BUF_SIZE && HDR_SIZE + |r.data| <= BUF_SIZE
  {
    p.(sbufs := p.sbufs[slot := p.sbufs[slot][..HDR_SIZE] + r.data + p.sbufs[slot][HDR_SIZE + |r.data|..]])
  }

  /** Add a buffer to the available ring; it fails when no descriptor is free or the queue is in error. */
  function AddOutbuf(p: Pool, slot: nat, len: nat, ioErr: bool): (Pool, bool) {
    if ioErr || p.numFree <= 0 then (p, false)
    else (p.(avail := p.avail + [Token(slot, len)], numFree := p.numFree - 1), true)
  }

  /** Where a sender is inside its send. */
  datatype Pc =
    | Out(ret: int)                                   // not sending; what the last send returned
    | First(req: Req, wait: bool)                     // about to try for a buffer
    | LoopTop(req: Req)                               // no buffer, may wait
    | FastCheck(req: Req)                             // condition checked once before joining the queue
    | Join(req: Req, expired: bool)                   // about to join the wait queue
    | Check(req: Req, expired: bool, signalled: bool) // about to check the condition again
    | Sched(req: Req)                                 // gave up the processor
    | Finish(req: Req, got: Option<nat>, timedOut: bool)
    | Down(req: Req, msg: Option<nat>, timeout: bool)
    | Hold(req: Req, slot: nat)
    | HdrDone(req: Req, slot: nat)
    | Filled(req: Req, slot: nat)

  /** Between counting itself as a sleeper and taking that back. */
  predicate Bracketed(pc: Pc) {
    pc.FastCheck? || pc.Join? || pc.Check? || pc.Sched? || pc.Finish? || pc.Down?
  }

  /** The slot a sender holds privately. */
  function SlotOf(pc: Pc): Option<nat> {
    match pc
    case Finish(_, m, _) => m
    case Down(_, m, _) => m
    case Hold(_, s) => Some(s)
    case HdrDone(_, s) => Some(s)
    case Filled(_, s) => Some(s)
    case _ => None
  }

  predicate Holding(pc: Pc) {
    SlotOf(pc).Some?
  }

  /** Bookkeeping for the proofs: who a slot belongs to. `k` counts successful sends, `pos` returned slots. */
  datatype Owner = Fresh | Sender(t: nat) | Avail(k: nat) | Device(k: nat) | Used(k: nat, pos: nat) | Lost

  predicate InRing(o: Owner) {
    o.Avail? || o.Device? || o.Used?
  }

  datatype Sent = Sent(slot: nat, req: Req)

  /**
   * `cap` is the tx ring size. `owed`: the device put a buffer in the used ring and has not yet looked
   * at the interrupt flag. `pending`: the interrupt is raised and not yet handled. `signals` holds the
   * contexts with a signal pending. `sent` logs the successful sends and `received` the frames the remote
   * read; `popped`, `failed` and `owner` are counts and ownership kept for the proofs, which no step looks at.
   */
  datatype State = State(
    cap: nat,
    p: Pool,
    owed: bool,
    pending: bool,
    sendq: set<nat>,
    signals: set<nat>,
    pcs: seq<Pc>,
    sent: seq<Sent>,
    received: seq<seq<byte>>,
    popped: nat,
    failed: nat,
    owner: seq<Owner>)

  datatype Cause = Ready | Timer | Signal

  datatype Action =
    | Enter(t: nat, src: u32, dst: u32, data: seq<byte>, len: i32, wait: bool)
    | Grab(t: nat)
    | Upref(t: nat)
    | FastTry(t: nat)
    | JoinQueue(t: nat)
    | Try(t: nat)
    | Leave(t: nat, cause: Cause)
    | FinishWait(t: nat)
    | Downref(t: nat)
    | PutHeader(t: nat)
    | PutPayload(t: nat)
    | Queue(t: nat, ioErr: bool)
    | DevTake
    | DevDone(slot: nat)
    | DevNotify
    | TxIrq(ignored: bool)
    | RaiseSignal(t: nat)  // a signal is sent to the context
    | HandleSignals(t: nat)     // back in user space, which handles its signals

  /** State after the bus was probed with `senders` contexts that may send. */
  predicate Init(s: State, rxRing: nat, txRing: nat, senders: nat) {
    && s.cap == txRing
    && s.p.lastSbuf == 0 && s.p.sleepers == 0 && !s.p.cbOn && s.p.numFree == txRing
    && s.p.avail == [] && s.p.inDev == {} && s.p.used == []
    && |s.p.sbufs| == NumSlots(rxRing) && (forall i :: 0 <= i < |s.p.sbufs| ==> |s.p.sbufs[i]| == BUF_SIZE)
    && !s.owed && !s.pending && s.sendq == {} && s.signals == {}
    && |s.pcs| == senders && (forall t :: 0 <= t < senders ==> s.pcs[t].Out?)
    && s.sent == [] && s.received == [] && s.popped == 0 && s.failed == 0
    && s.owner == seq(|s.p.sbufs|, i => Fresh)
  }

  /** The idle protocol state around a pool: `senders` contexts, none of them sending. */
  function Around(p: Pool, senders: nat): State {
    State(if p.numFree >= 0 then p.numFree else 0, p, false, false, {}, {}, seq(senders, _ => Out(0)), [], [], 0, 0,
          seq(|p.sbufs|, _ => Fresh))
  }

  /** Fixed for the life of the bus: ring size, number of slots, number of contexts. */
  predicate SameShape(s: State, s': State) {
    |s'.p.sbufs| == |s.p.sbufs| && |s'.pcs| == |s.pcs| && s'.cap == s.cap
  }

  /** Neither writes a buffer nor completes or fails a send's queueing. */
  predicate Aside(s: State, s': State) {
    SameShape(s, s') && s'.p.sbufs == s.p.sbufs && s'.sent == s.sent && s'.failed == s.failed
  }

  /** No sender moves, and none is queued, woken or signalled. */
  predicate SameQueue(s: State, s': State) {
    s'.pcs == s.pcs && s'.sendq == s.sendq && s'.signals == s.signals
  }

  function Goto(s: State, t: nat, pc: Pc): State
    requires t < |s.pcs|
  {
    s.(pcs := s.pcs[t := pc])
  }

  function Own(s: State, slot: nat, o: Owner): State {
    if slot < |s.owner| then s.(owner := s.owner[slot := o]) else s
  }

  /** The shared part of every call to get_a_tx_buf: take a buffer and note its new owner. */
  function Take(s: State, t: nat): (r: (State, Option<nat>))
    ensures SameQueue(s, r.0)
  {
    var (p, m) := GetTxBuf(s.p);
    var s1 := s.(p := p, popped := s.popped + (if m.Some? && s.p.lastSbuf == p.lastSbuf then 1 else 0));
    (if m.Some? then Own(s1, m.value, Sender(t)) else s1, m)
  }

  function DoEnter(s: State, t: nat, src: u32, dst: u32, data: seq<byte>, len: i32, wait: bool): (s': State)
    requires t < |s.pcs|
    ensures Aside(s, s') && s'.owner == s.owner
  {
    var err := SendCheck(src, dst, len);
    if err != 0 then Goto(s, t, Out(err))
    else if |data| != len then s // the caller passes `len` bytes
    else Goto(s, t, First(Req(src, dst, data), wait))
  }

  function DoGrab(s: State, t: nat): (s': State)
    requires t < |s.pcs| && s.pcs[t].First?
    ensures Aside(s, s')
  {
    var pc := s.pcs[t];
    var (s1, m) := Take(s, t);
    Goto(s1, t, if m.Some? then Hold(pc.req, m.value) else if !pc.wait then Out(ENOMEM) else LoopTop(pc.req))
  }

  function DoFastTry(s: State, t: nat): (s': State)
    requires t < |s.pcs| && s.pcs[t].FastCheck?
    ensures Aside(s, s')
  {
    var (s1, m) := Take(s, t);
    Goto(s1, t, if m.Some? then Down(s.pcs[t].req, m, false) else Join(s.pcs[t].req, false))
  }

  /** A pending signal keeps the sender off the wait queue; it then leaves after one more check. */
  function DoJoin(s: State, t: nat): (s': State)
    requires t < |s.pcs| && s.pcs[t].Join?
    ensures Aside(s, s') && s'.owner == s.owner
  {
    var pc, signal := s.pcs[t], t in s.signals;
    Goto(s.(sendq := if signal then s.sendq - {t} else s.sendq + {t}), t, Check(pc.req, pc.expired, signal))
  }

  function DoTry(s: State, t: nat): (s': State)
    requires t < |s.pcs| && s.pcs[t].Check?
    ensures Aside(s, s')
  {
    var pc := s.pcs[t];
    var (s1, m) := Take(s, t);
    Goto(s1, t, if m.Some? then Finish(pc.req, m, false)
                else if pc.expired then Finish(pc.req, None, true)
                else if pc.signalled then Finish(pc.req, None, false)
                else Sched(pc.req))
  }

  /**
   * A sender that gave up the processor goes on when it is woken, when the timer runs out, or when a signal is
   * pending. The wait condition takes a mutex, and sleeping on that can leave the sender runnable although it is
   * still on the wait queue, so it may go on at any time.
   */
  function DoLeave(s: State, t: nat, cause: Cause): (s': State)
    requires t < |s.pcs| && s.pcs[t].Sched?
    ensures Aside(s, s') && s'.owner == s.owner
  {
    if cause.Signal? && t !in s.signals then s
    else Goto(s, t, Join(s.pcs[t].req, cause.Timer?))
  }

  function DoDownref(s: State, t: nat): (s': State)
    requires t < |s.pcs| && s.pcs[t].Down?
    ensures Aside(s, s') && s'.owner == s.owner
  {
    var pc := s.pcs[t];
    Goto(s.(p := DownrefSleepers(s.p)), t,
         if pc.timeout then Out(ERESTARTSYS)
         else if pc.msg.Some? then Hold(pc.req, pc.msg.value)
         else LoopTop(pc.req))
  }

  predicate Writable(s: State, slot: nat, r: Req) {
    slot < |s.p.sbufs| && |s.p.sbufs[slot]| == BUF_SIZE && HDR_SIZE + |r.data| <= BUF_SIZE
  }

  function DoQueue(s: State, t: nat, ioErr: bool): (s': State)
    requires t < |s.pcs| && s.pcs[t].Filled?
    ensures SameShape(s, s') && s'.p.sbufs == s.p.sbufs
  {
    var pc := s.pcs[t];
    var (p, ok) := AddOutbuf(s.p, pc.slot, |Frame(pc.req)|, ioErr);
    var s1 := s.(p := p);
    if ok then
      Goto(Own(s1, pc.slot, Avail(|s.sent|)).(sent := s.sent + [Sent(pc.slot, pc.req)]), t, Out(0))
    else
      Goto(Own(s1, pc.slot, Lost).(failed := s.failed + 1), t, Out(if ioErr then EIO else ENOSPC))
  }

  /** The device takes the oldest available buffer and reads the bytes it was told about. */
  function DoDevTake(s: State): (s': State)
    ensures Aside(s, s') && SameQueue(s, s')
  {
    if s.p.avail == [] then s
    else
      var tok := s.p.avail[0];
      var bytes := if tok.slot < |s.p.sbufs| && tok.len <= |s.p.sbufs[tok.slot]|
                   then s.p.sbufs[tok.slot][..tok.len] else [];
      Own(s.(p := s.p.(avail := s.p.avail[1..], inDev := s.p.inDev + {tok.slot}),
             received := s.received + [bytes]),
          tok.slot, Device(|s.received|))
  }

  /** The device returns a buffer, in any order, and will look at the interrupt flag next. */
  function DoDevDone(s: State, slot: nat): (s': State)
    ensures Aside(s, s') && SameQueue(s, s')
  {
    if slot !in s.p.inDev then s
    else
      var k := if slot < |s.owner| && s.owner[slot].Device? then s.owner[slot].k else 0;
      Own(s.(p := s.p.(inDev := s.p.inDev - {slot}, used := s.p.used + [slot]), owed := true),
          slot, Used(k, s.popped + |s.p.used|))
  }

  /** One atomic step; a step that is not enabled changes nothing. */
  function Step(s: State, a: Action): (s': State)
    ensures SameShape(s, s')
  {
    match a
    case Enter(t, src, dst, data, len, wait) =>
      if t < |s.pcs| && s.pcs[t].Out? then DoEnter(s, t, src, dst, data, len, wait) else s
    case Grab(t) =>
      if t < |s.pcs| && s.pcs[t].First? then DoGrab(s, t) else s
    case Upref(t) =>
      if t < |s.pcs| && s.pcs[t].LoopTop? then
        Goto(s.(p := UprefSleepers(s.p)), t, FastCheck(s.pcs[t].req)) else s
    case FastTry(t) =>
      if t < |s.pcs| && s.pcs[t].FastCheck? then DoFastTry(s, t) else s
    case JoinQueue(t) =>
      if t < |s.pcs| && s.pcs[t].Join? then DoJoin(s, t) else s
    case Try(t) =>
      if t < |s.pcs| && s.pcs[t].Check? then DoTry(s, t) else s
    case Leave(t, cause) =>
      if t < |s.pcs| && s.pcs[t].Sched? then DoLeave(s, t, cause) else s
    case FinishWait(t) =>
      if t < |s.pcs| && s.pcs[t].Finish? then
        Goto(s.(sendq := s.sendq - {t}), t, Down(s.pcs[t].req, s.pcs[t].got, s.pcs[t].timedOut)) else s
    case Downref(t) =>
      if t < |s.pcs| && s.pcs[t].Down? then DoDownref(s, t) else s
    case PutHeader(t) =>
      if t < |s.pcs| && s.pcs[t].Hold? && Writable(s, s.pcs[t].slot, s.pcs[t].req) then
        Goto(s.(p := WriteHeader(s.p, s.pcs[t].slot, s.pcs[t].req)), t, HdrDone(s.pcs[t].req, s.pcs[t].slot)) else s
    case PutPayload(t) =>
      if t < |s.pcs| && s.pcs[t].HdrDone? && Writable(s, s.pcs[t].slot, s.pcs[t].req) then
        Goto(s.(p := WritePayload(s.p, s.pcs[t].slot, s.pcs[t].req)), t, Filled(s.pcs[t].req, s.pcs[t].slot)) else s
    case Queue(t, ioErr) =>
      if t < |s.pcs| && s.pcs[t].Filled? then DoQueue(s, t, ioErr) else s
    case DevTake => DoDevTake(s)
    case DevDone(slot) => DoDevDone(s, slot)
    case DevNotify =>
      if s.owed then s.(owed := false, pending := s.pending || s.p.cbOn) else s
    case TxIrq(ignored) =>
      if !s.pending then s
      else if ignored && s.p.used == [] then s.(pending := false) // nothing was returned: handler not called
      else s.(pending := false, sendq := {})                      // wakes every waiter
    case RaiseSignal(t) => s.(signals := s.signals + {t})
    case HandleSignals(t) =>
      if t < |s.pcs| && s.pcs[t].Out? then s.(signals := s.signals - {t}) else s
  }

  /** A run: every finite sequence of steps, in any interleaving. */
  function Run(s: State, acts: seq<Action>): (s': State)
    ensures SameShape(s, s')
    decreases |acts|
  {
    if acts == [] then s else Run(Step(s, acts[0]), acts[1..])
  }

  lemma {:induction false} RunAppend(s: State, a: seq<Action>, b: seq<Action>)
    ensures Run(s, a + b) == Run(Run(s, a), b)
    decreases |a|
  {
    hide Step;
    if a == [] {
      assert a + b == b;
    } else {
      assert (a + b)[1..] == a[1..] + b;
      RunAppend(Step(s, a[0]), a[1..], b);
    }
  }

  /** A run from its intermediate states. */
  lemma {:induction false} RunThrough(acts: seq<Action>, states: seq<State>)
    requires |states| == |acts| + 1 && forall i: nat :: i < |acts| ==> Step(states[i], acts[i]) == states[i + 1]
    ensures Run(states[0], acts) == states[|acts|]
    decreases |acts|
  {
    hide Step;
    if acts != [] {
      forall i: nat | i < |acts[1..]| ensures Step(states[1..][i], acts[1..][i]) == states[1..][i + 1] {
        assert Step(states[i + 1], acts[i + 1]) == states[i + 2];
      }
      RunThrough(acts[1..], states[1..]);
    }
  }

  /** Asleep: gave up the processor and still on the wait queue, relying on a wake-up. */
  predicate Asleep(s: State, t: nat) {
    t < |s.pcs| && s.pcs[t].Sched? && t in s.sendq
  }

  // ----- the remote's moves, as the pool sees them -----

  /** The remote takes the oldest available buffer. */
  function PoolTake(p: Pool): Pool {
    if p.avail == [] then p else p.(avail := p.avail[1..], inDev := p.inDev + {p.avail[0].slot})
  }

  /** The remote returns a buffer it has. */
  function PoolReturn(p: Pool, slot: nat): Pool {
    if slot in p.inDev then p.(inDev := p.inDev - {slot}, used := p.used + [slot]) else p
  }

  // ----- a send taken as one piece -----

  /** Fill the buffer and queue it. */
  function Transmit(p: Pool, slot: nat, r: Req, ioErr: bool): (Pool, int)
    requires slot < |p.sbufs| && |p.sbufs[slot]| == BUF_SIZE && HDR_SIZE + |r.data| <= BUF_SIZE
  {
    var (p1, ok) := AddOutbuf(WritePayload(WriteHeader(p, slot, r), slot, r), slot, |Frame(r)|, ioErr);
    (p1, if ok then 0 else if ioErr then EIO else ENOSPC)
  }

  /** What happens during one wait: the device returns a buffer, 15 seconds go by, or a signal arrives. */
  datatype Round = Returned(slot: nat) | Expired | Signalled

  /** The first wait during which a buffer is returned. */
  function FirstReturn(rounds: seq<Round>): (k: nat)
    ensures k <= |rounds|
    ensures forall i :: 0 <= i < k ==> !rounds[i].Returned?
    ensures k < |rounds| ==> rounds[k].Returned?
  {
    if rounds == [] || rounds[0].Returned? then 0 else 1 + FirstReturn(rounds[1..])
  }

  /** The first wait sleeps, as no signal is pending, and the time runs out. */
  predicate TimesOut(pending: bool, rounds: seq<Round>) {
    !pending && rounds != [] && rounds[0].Expired?
  }

  /**
   * No buffer at the first try. The first wait may time out. A signal does not end the send but stays
   * pending, so every later wait is over at once, and only a returned buffer ends the send. Waiting leaves
   * `sleepers` and the interrupt flag as they were. None: still waiting when the account ends.
   */
  function SendWaiting(p: Pool, r: Req, pending: bool, rounds: seq<Round>, ioErr: bool): (Pool, Option<int>)
    requires forall i :: 0 <= i < |p.sbufs| ==> |p.sbufs[i]| == BUF_SIZE
    requires forall i :: 0 <= i < |rounds| && rounds[i].Returned? ==> rounds[i].slot < |p.sbufs|
    requires HDR_SIZE + |r.data| <= BUF_SIZE
  {
    var k := FirstReturn(rounds);
    if TimesOut(pending, rounds) then (p, Some(ERESTARTSYS))
    else if k == |rounds| then (p, None)
    else
      var slot := rounds[k].slot;
      var (p', ret) := Transmit(p.(inDev := p.inDev - {slot}, numFree := p.numFree + 1), slot, r, ioErr);
      (p', Some(ret))
  }

  /**
   * A whole send, `pending` telling whether a signal is pending when it starts and `rounds` what happens
   * during its waits. Every buffer of the pool has 512 bytes.
   */
  function Send(p: Pool, r: Req, len: i32, wait: bool, pending: bool, rounds: seq<Round>, ioErr: bool)
    : (Pool, Option<int>)
    requires forall i :: 0 <= i < |p.sbufs| ==> |p.sbufs[i]| == BUF_SIZE
    requires forall j :: 0 <= j < |p.used| ==> p.used[j] < |p.sbufs|
    requires forall i :: 0 <= i < |rounds| && rounds[i].Returned? ==> rounds[i].slot < |p.sbufs|
    requires SendCheck(r.src, r.dst, len) == 0 ==> |r.data| == len
  {
    var err := SendCheck(r.src, r.dst, len);
    if err != 0 then (p, Some(err))
    else
      var (p1, m) := GetTxBuf(p);
      if m.Some? then
        var (p2, ret) := Transmit(p1, m.value, r, ioErr);
        (p2, Some(ret))
      else if !wait then (p1, Some(ENOMEM))
      else SendWaiting(p1, r, pending, rounds, ioErr)
  }
}

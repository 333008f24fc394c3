/** Runs of the protocols that end in what the bus object holds, and how each entry point prolongs them. */
module VirtprocRuns {
  import opened Common
  import opened Wire
  import TxMachine
  import TxWaiting
  import RxRing
  import Endpoints
  import EndpointSafety
  import opened EndpointCalls

  // ----- the runs -----

  /** A run of the transmission protocol with one sender, idle at the end, that leads to the pool. */
  ghost predicate TxRun(s0: TxMachine.State, log: seq<TxMachine.Action>, rxRing: nat, p: TxMachine.Pool) {
    && TxMachine.Init(s0, rxRing, s0.cap, 1)
    && TxMachine.Run(s0, log).p == p && TxMachine.Run(s0, log).pcs[0].Out?
  }

  /** A run of the reception protocol that leads to the rx state. */
  ghost predicate RxRun(rx0: RxRing.Rx, log: seq<RxRing.Action>, n: nat, rx: RxRing.Rx) {
    RxRing.Init(rx0, n) && RxRing.Run(rx0, log) == rx
  }

  /** A run of the registry with one context, idle at the end, that leads to table and endpoints and makes the calls. */
  ghost predicate EptRun(s0: Endpoints.State, log: seq<Endpoints.Action>,
                         idr: map<nat, nat>, heap: map<nat, Endpoints.Ept>, next: nat, calls: seq<nat>) {
    && Endpoints.Init(s0, 1)
    && var s := Endpoints.Run(s0, log);
       s.idr == idr && s.heap == heap && s.next == next && s.calls == calls && |s.pcs| == 1 && s.pcs[0].Idle?
  }

  // ----- where the runs start -----

  lemma TxStarts(p: TxMachine.Pool, rxRing: nat, txRing: nat)
    requires TxMachine.Init(TxMachine.Around(p, 1), rxRing, txRing, 1)
    ensures TxMachine.Around(p, 1).cap == txRing && TxRun(TxMachine.Around(p, 1), [], rxRing, p)
  {
  }

  lemma RxStarts(rx: RxRing.Rx, n: nat)
    requires RxRing.Init(rx, n)
    ensures RxRun(rx, [], n, rx)
  {
  }

  /** No endpoint yet, and one context. */
  function NoEndpoints(): Endpoints.State {
    Endpoints.State(map[], map[], 0, [Endpoints.Idle], map[], {}, {}, [], [], false)
  }

  lemma EptsStart()
    ensures EptRun(NoEndpoints(), [], map[], map[], 0, [])
  {
  }

  // ----- sending -----

  /** A signal is raised, or the signals there were are handled, before the send. */
  function Signal(pending: bool): TxMachine.Action {
    if pending then TxMachine.RaiseSignal(0) else TxMachine.HandleSignals(0)
  }

  function SendLog(p: TxMachine.Pool, r: Req, len: i32, wait: bool, pending: bool,
                   rounds: seq<TxMachine.Round>, ioErr: bool): seq<TxMachine.Action>
  {
    [Signal(pending)] + TxWaiting.SendActs(p, 0, r, len, wait, pending, rounds, ioErr)
  }

  lemma RunOne(s: TxMachine.State, a: TxMachine.Action)
    ensures TxMachine.Run(s, [a]) == TxMachine.Step(s, a)
  {
    hide TxMachine.Step;
    assert TxMachine.Run(s, [a]) == TxMachine.Run(TxMachine.Step(s, a), []);
  }

  lemma SignalEffect(s: TxMachine.State)
    requires |s.pcs| > 0 && s.pcs[0].Out?
    ensures TxMachine.Step(s, TxMachine.RaiseSignal(0)) == s.(signals := s.signals + {0})
    ensures TxMachine.Step(s, TxMachine.HandleSignals(0)) == s.(signals := s.signals - {0})
  {
  }

  lemma SignalStep(s: TxMachine.State, pending: bool)
    requires |s.pcs| > 0 && s.pcs[0].Out?
    ensures var s' := TxMachine.Run(s, [Signal(pending)]);
            s'.p == s.p && s'.pcs == s.pcs && (0 in s'.signals <==> pending)
  {
    hide TxMachine.Run, TxMachine.Step;
    SignalEffect(s);
    RunOne(s, Signal(pending));
  }

  /** What a pool reached by a run satisfies. */
  lemma TxRunPool(s0: TxMachine.State, log: seq<TxMachine.Action>, rxRing: nat, p: TxMachine.Pool)
    requires TxRun(s0, log, rxRing, p)
    ensures p.sleepers >= 0 && (p.cbOn <==> p.sleepers > 0)
    ensures forall i :: 0 <= i < |p.sbufs| ==> |p.sbufs[i]| == BUF_SIZE
    ensures forall j :: 0 <= j < |p.used| ==> p.used[j] < |p.sbufs|
    ensures forall i :: i in p.inDev ==> i < |p.sbufs|
  {
    TxWaiting.PoolInBounds(s0, rxRing, s0.cap, 1, log);
  }

  lemma AfterSignal(s0: TxMachine.State, log: seq<TxMachine.Action>, rxRing: nat, p: TxMachine.Pool, pending: bool)
    requires TxRun(s0, log, rxRing, p)
    ensures TxRun(s0, log + [Signal(pending)], rxRing, p)
    ensures 0 in TxMachine.Run(s0, log + [Signal(pending)]).signals <==> pending
  {
    hide TxMachine.Run, TxMachine.Step;
    SignalStep(TxMachine.Run(s0, log), pending);
    TxMachine.RunAppend(s0, log, [Signal(pending)]);
  }

  lemma AfterSend(s0: TxMachine.State, log: seq<TxMachine.Action>, rxRing: nat, p: TxMachine.Pool, r: Req, len: i32,
                  wait: bool, rounds: seq<TxMachine.Round>, ioErr: bool)
    requires TxRun(s0, log, rxRing, p) && TxWaiting.AtDevice(p, rounds)
    requires SendCheck(r.src, r.dst, len) == 0 ==> |r.data| == len
    requires forall i :: 0 <= i < |p.sbufs| ==> |p.sbufs[i]| == BUF_SIZE
    requires forall j :: 0 <= j < |p.used| ==> p.used[j] < |p.sbufs|
    ensures var pending := 0 in TxMachine.Run(s0, log).signals;
            var (p', ret) := TxMachine.Send(p, r, len, wait, pending, rounds, ioErr);
            ret.Some? ==> TxRun(s0, log + TxWaiting.SendActs(p, 0, r, len, wait, pending, rounds, ioErr), rxRing, p')
  {
    assert TxMachine.Init(s0, rxRing, s0.cap, 1);
    hide TxMachine.Run, TxMachine.Step, TxMachine.Init, TxMachine.Send, SendCheck;
    hide TxWaiting.SendActs, TxWaiting.AtDevice;
    TxWaiting.SendsStayRuns(s0, rxRing, s0.cap, 1, log, 0, r, len, wait, rounds, ioErr);
  }

  /** A send that waits on leaves the pool alone. */
  lemma StillWaiting(p: TxMachine.Pool, r: Req, len: i32, wait: bool, pending: bool,
                     rounds: seq<TxMachine.Round>, ioErr: bool)
    requires forall i :: 0 <= i < |p.sbufs| ==> |p.sbufs[i]| == BUF_SIZE
    requires forall j :: 0 <= j < |p.used| ==> p.used[j] < |p.sbufs|
    requires forall i :: 0 <= i < |rounds| && rounds[i].Returned? ==> rounds[i].slot < |p.sbufs|
    requires SendCheck(r.src, r.dst, len) == 0 ==> |r.data| == len
    ensures var (p', ret) := TxMachine.Send(p, r, len, wait, pending, rounds, ioErr); ret.None? ==> p' == p
  {
    hide TxMachine.Transmit;
  }

  lemma LogsJoin(log: seq<TxMachine.Action>, p: TxMachine.Pool, r: Req, len: i32, wait: bool, pending: bool,
                 rounds: seq<TxMachine.Round>, ioErr: bool)
    ensures log + SendLog(p, r, len, wait, pending, rounds, ioErr) ==
            (log + [Signal(pending)]) + TxWaiting.SendActs(p, 0, r, len, wait, pending, rounds, ioErr)
  {
    hide TxWaiting.SendActs, Signal;
  }

  lemma SendProlongs(s0: TxMachine.State, log: seq<TxMachine.Action>, rxRing: nat, p: TxMachine.Pool, r: Req, len: i32,
                     wait: bool, pending: bool, rounds: seq<TxMachine.Round>, ioErr: bool)
    requires TxRun(s0, log, rxRing, p) && TxWaiting.AtDevice(p, rounds)
    requires SendCheck(r.src, r.dst, len) == 0 ==> |r.data| == len
    requires forall i :: 0 <= i < |p.sbufs| ==> |p.sbufs[i]| == BUF_SIZE
    requires forall j :: 0 <= j < |p.used| ==> p.used[j] < |p.sbufs|
    ensures var (p', ret) := TxMachine.Send(p, r, len, wait, pending, rounds, ioErr);
            if ret.Some? then TxRun(s0, log + SendLog(p, r, len, wait, pending, rounds, ioErr), rxRing, p') else p' == p
  {
    assert forall i :: 0 <= i < |rounds| && rounds[i].Returned? ==> rounds[i].slot < |p.sbufs|;
    hide *;
    StillWaiting(p, r, len, wait, pending, rounds, ioErr);
    AfterSignal(s0, log, rxRing, p, pending);
    AfterSend(s0, log + [Signal(pending)], rxRing, p, r, len, wait, rounds, ioErr);
    LogsJoin(log, p, r, len, wait, pending, rounds, ioErr);
  }

  // ----- the remote on the tx side -----

  lemma TakeProlongs(s0: TxMachine.State, log: seq<TxMachine.Action>, rxRing: nat, p: TxMachine.Pool)
    requires TxRun(s0, log, rxRing, p)
    ensures TxRun(s0, log + [TxMachine.DevTake], rxRing, TxMachine.PoolTake(p))
  {
    hide TxMachine.Run;
    var s := TxMachine.Run(s0, log);
    var s' := TxMachine.Step(s, TxMachine.DevTake);
    assert s'.p == TxMachine.PoolTake(p) && s'.pcs == s.pcs;
    RunOne(s, TxMachine.DevTake);
    TxMachine.RunAppend(s0, log, [TxMachine.DevTake]);
  }

  lemma ReturnProlongs(s0: TxMachine.State, log: seq<TxMachine.Action>, rxRing: nat, p: TxMachine.Pool, slot: nat)
    requires TxRun(s0, log, rxRing, p)
    ensures TxRun(s0, log + [TxMachine.DevDone(slot)], rxRing, TxMachine.PoolReturn(p, slot))
  {
    hide TxMachine.Run;
    var s := TxMachine.Run(s0, log);
    var s' := TxMachine.Step(s, TxMachine.DevDone(slot));
    assert s'.p == TxMachine.PoolReturn(p, slot) && s'.pcs == s.pcs;
    RunOne(s, TxMachine.DevDone(slot));
    TxMachine.RunAppend(s0, log, [TxMachine.DevDone(slot)]);
  }

  // ----- reception -----

  lemma FillProlongs(rx0: RxRing.Rx, log: seq<RxRing.Action>, n: nat, rx: RxRing.Rx, a: RxRing.Action)
    requires RxRun(rx0, log, n, rx)
    ensures RxRun(rx0, log + [a], n, RxRing.Step(rx, a))
  {
    hide RxRing.Step;
    RxRing.RunAppend(rx0, log, [a]);
    assert RxRing.Run(rx, [a]) == RxRing.Run(RxRing.Step(rx, a), []);
  }

  function DrainLog(rx: RxRing.Rx, bound: map<nat, Binding>, addErr: nat -> bool, k: nat): seq<RxRing.Action> {
    RxRing.DrainActs(bound, addErr, if k < |rx.used| then k + 1 else k)
  }

  lemma DrainProlongs(rx0: RxRing.Rx, log: seq<RxRing.Action>, n: nat, rx: RxRing.Rx,
                      bound: map<nat, Binding>, addErr: nat -> bool, k: nat)
    requires RxRun(rx0, log, n, rx) && rx.hand.None? && RxRing.StopsAt(rx.bufs, rx.used, addErr, k)
    ensures RxRun(rx0, log + DrainLog(rx, bound, addErr, k), n, RxRing.Drained(rx, bound, k))
  {
    hide RxRing.Run, RxRing.Init, RxRing.Drained, RxRing.StopsAt;
    RxRing.DrainsStayRuns(rx0, n, log, bound, addErr, k);
  }

  // ----- endpoints -----

  lemma CreateProlongs(s0: Endpoints.State, log: seq<Endpoints.Action>, s: Endpoints.State,
                       calls: seq<nat>, addr: u32, cb: bool, noMem: bool)
    requires EptRun(s0, log, s.idr, s.heap, s.next, calls)
    ensures var s' := Endpoints.DoCreate(s, addr, cb, noMem).0;
            EptRun(s0, log + [Endpoints.Create(addr, cb, noMem)], s'.idr, s'.heap, s'.next, calls)
  {
    hide Endpoints.Run, Endpoints.ChooseAddr;
    var a, t := Endpoints.Create(addr, cb, noMem), Endpoints.Run(s0, log);
    EndpointSafety.RunAppend(s0, log, [a]);
    EndpointSafety.RunOne(t, a);
    assert Endpoints.Step(t, a) == Endpoints.DoCreate(t, addr, cb, noMem).0;
  }

  lemma DestroyProlongs(s0: Endpoints.State, log: seq<Endpoints.Action>,
                        idr: map<nat, nat>, heap: map<nat, Endpoints.Ept>, next: nat, calls: seq<nat>, e: nat)
    requires EptRun(s0, log, idr, heap, next, calls) && e in heap && heap[e].lock.None?
    requires heap[e].addr in idr && idr[heap[e].addr] == e
    ensures EptRun(s0, log + [Endpoints.Remove(0, e), Endpoints.Clear(0), Endpoints.DropRef(0)],
                   idr - {heap[e].addr}, Endpoints.AfterDestroy(heap, e), next, calls)
  {
    var s := Endpoints.Run(s0, log);
    EndpointSafety.Reached(s0, 1, log);
    assert e < next && e !in s.doomed;
    hide Endpoints.Run, EndpointSafety.Inv;
    Endpoints.DestroyIsARun(s, 0, e);
    EndpointSafety.RunAppend(s0, log, [Endpoints.Remove(0, e), Endpoints.Clear(0), Endpoints.DropRef(0)]);
  }

  /** The dispatch of each message that passes the receive check, in order. */
  function DispatchLog(bufs: seq<seq<byte>>, toks: seq<RxRing.RxToken>): seq<Endpoints.Action> {
    if toks == [] then []
    else
      var tok := toks[|toks| - 1];
      DispatchLog(bufs, toks[..|toks| - 1]) +
      (if RxRing.Accepted(bufs, tok) then DispatchActs(0, U32At(bufs[tok.slot], 4)) else [])
  }

  lemma OneDispatch(s0: Endpoints.State, log: seq<Endpoints.Action>, idr: map<nat, nat>,
                    heap: map<nat, Endpoints.Ept>, next: nat, calls: seq<nat>, buf: seq<byte>)
    requires EptRun(s0, log, idr, heap, next, calls) && (forall e :: e in heap ==> heap[e].lock.None?)
    requires |buf| == BUF_SIZE
    ensures EptRun(s0, log + DispatchActs(0, U32At(buf, 4)), idr, heap, next,
                   calls + EptsOf(Dispatch(BoundOf(idr, heap), buf)))
  {
    hide Endpoints.Run, DispatchActs, Dispatch, BoundOf, EptsOf;
    FrameDispatch(s0, 1, log, 0, buf);
    EndpointSafety.RunAppend(s0, log, DispatchActs(0, U32At(buf, 4)));
  }

  /** The dispatches of a drain, taken as runs of the registry, make the calls that the drain makes. */
  lemma {:induction false} DispatchesProlong(s0: Endpoints.State, log: seq<Endpoints.Action>, idr: map<nat, nat>,
                                             heap: map<nat, Endpoints.Ept>, next: nat, calls: seq<nat>,
                                             bufs: seq<seq<byte>>, toks: seq<RxRing.RxToken>)
    requires EptRun(s0, log, idr, heap, next, calls) && (forall e :: e in heap ==> heap[e].lock.None?)
    ensures EptRun(s0, log + DispatchLog(bufs, toks), idr, heap, next,
                   calls + EptsOf(RxRing.AllCalls(BoundOf(idr, heap), bufs, toks)))
  {
    hide EptRun, DispatchActs, Dispatch, BoundOf, AcceptsBuf, EptsOf;
    if toks == [] {
      assert log + [] == log;
      EptsJoin([], []);
      assert calls + EptsOf([]) == calls;
    } else {
      var front, tok := toks[..|toks| - 1], toks[|toks| - 1];
      var bound := BoundOf(idr, heap);
      var log1, calls1 := log + DispatchLog(bufs, front), calls + EptsOf(RxRing.AllCalls(bound, bufs, front));
      var more := RxRing.CallsFor(bound, bufs, tok);
      DispatchesProlong(s0, log, idr, heap, next, calls, bufs, front);
      EptsJoin(RxRing.AllCalls(bound, bufs, front), more);
      assert calls1 + EptsOf(more) == calls + EptsOf(RxRing.AllCalls(bound, bufs, toks));
      if RxRing.Accepted(bufs, tok) {
        var acts := DispatchActs(0, U32At(bufs[tok.slot], 4));
        OneDispatch(s0, log1, idr, heap, next, calls1, bufs[tok.slot]);
        assert log1 + acts == log + (DispatchLog(bufs, front) + acts);
      } else {
        assert calls1 + EptsOf([]) == calls1;
        assert DispatchLog(bufs, front) + [] == DispatchLog(bufs, front);
      }
    }
  }

  function Tried(rx: RxRing.Rx, k: nat): seq<RxRing.RxToken>
    requires k <= |rx.used|
  {
    rx.used[..if k < |rx.used| then k + 1 else k]
  }

  lemma DrainDispatches(s0: Endpoints.State, log: seq<Endpoints.Action>, idr: map<nat, nat>,
                        heap: map<nat, Endpoints.Ept>, next: nat, rx: RxRing.Rx, k: nat)
    requires EptRun(s0, log, idr, heap, next, EptsOf(rx.calls)) && (forall e :: e in heap ==> heap[e].lock.None?)
    requires k <= |rx.used|
    ensures EptRun(s0, log + DispatchLog(rx.bufs, Tried(rx, k)), idr, heap, next,
                   EptsOf(RxRing.Drained(rx, BoundOf(idr, heap), k).calls))
  {
    hide EptRun, DispatchLog, EptsOf;
    DispatchesProlong(s0, log, idr, heap, next, EptsOf(rx.calls), rx.bufs, Tried(rx, k));
    EptsJoin(rx.calls, RxRing.AllCalls(BoundOf(idr, heap), rx.bufs, Tried(rx, k)));
  }
}

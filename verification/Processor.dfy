/**
 * A remote processor's bus object together with its history: the runs of the protocols that lead to what the
 * object holds. Every entry point, and every move of the remote, prolongs them.
 */
module Processor {
  import opened Common
  import opened Wire
  import opened VirtprocRuns
  import TxMachine
  import TxTheorems
  import TxWaiting
  import RxRing
  import Endpoints
  import Virtproc
  import opened EndpointCalls

  class Processor {
    const vrp: Virtproc.VirtprocInfo
    ghost var tx0: TxMachine.State
    ghost var txLog: seq<TxMachine.Action>
    ghost var rx0: RxRing.Rx
    ghost var rxLog: seq<RxRing.Action>
    ghost var ept0: Endpoints.State
    ghost var eptLog: seq<Endpoints.Action>

    ghost predicate TxReached()
      requires vrp.Valid()
      reads this, vrp, vrp.bufs
    {
      TxRun(tx0, txLog, vrp.rcap, vrp.Pool())
    }

    ghost predicate RxReached()
      requires vrp.Valid()
      reads this, vrp, vrp.bufs
    {
      RxRun(rx0, rxLog, vrp.slots, vrp.RxState())
    }

    ghost predicate EptReached()
      reads this, vrp
    {
      EptRun(ept0, eptLog, vrp.idr, vrp.epts, vrp.nextEpt, EptsOf(vrp.calls))
    }

    /**
     * Tx pool, rx state and endpoints are each reached by a run of their protocol from probe; the run of the registry
     * has made the callbacks that the object has.
     */
    ghost predicate Reached()
      reads this, vrp, vrp.bufs
    {
      vrp.Valid() && TxReached() && RxReached() && EptReached()
    }

    constructor (rxRing: nat, txRing: nat)
      ensures Reached() && fresh(vrp) && fresh(vrp.bufs) && vrp.rcap == rxRing && tx0.cap == txRing
      ensures txLog == [] && rxLog == [] && eptLog == []
    {
      hide TxRun, RxRun, EptRun, NoEndpoints, TxMachine.Init, TxMachine.Around, RxRing.Init;
      vrp := new Virtproc.VirtprocInfo(rxRing, txRing);
      new;
      tx0, txLog := TxMachine.Around(vrp.Pool(), 1), [];
      rx0, rxLog := vrp.RxState(), [];
      ept0, eptLog := NoEndpoints(), [];
      TxStarts(vrp.Pool(), rxRing, txRing);
      RxStarts(rx0, vrp.slots);
      EptsStart();
    }

    // ----- the remote -----

    method RemoteTake() returns (frame: seq<byte>)
      requires Reached()
      modifies this`txLog, vrp`avail, vrp`inDev
      ensures Reached() && txLog == old(txLog) + [TxMachine.DevTake]
      ensures vrp.Pool() == TxMachine.PoolTake(old(vrp.Pool()))
    {
      hide TxRun, RxRun, EptRun;
      ghost var rx := vrp.RxState();
      TakeProlongs(tx0, txLog, vrp.rcap, vrp.Pool());
      frame := vrp.RemoteTake();
      txLog := txLog + [TxMachine.DevTake];
      assert vrp.RxState() == rx;
    }

    method RemoteReturn(slot: nat)
      requires Reached() && slot in vrp.inDev
      modifies this`txLog, vrp`inDev, vrp`used
      ensures Reached() && txLog == old(txLog) + [TxMachine.DevDone(slot)]
      ensures vrp.Pool() == TxMachine.PoolReturn(old(vrp.Pool()), slot)
    {
      hide TxRun, RxRun, EptRun;
      ghost var rx := vrp.RxState();
      ReturnProlongs(tx0, txLog, vrp.rcap, vrp.Pool(), slot);
      vrp.RemoteReturn(slot);
      txLog := txLog + [TxMachine.DevDone(slot)];
      assert vrp.RxState() == rx;
    }

    method RemoteFill(slot: nat, bytes: seq<byte>, len: u32)
      requires Reached() && slot in vrp.rposted && |bytes| == BUF_SIZE
      modifies this`rxLog, vrp`rposted, vrp`rused, vrp.bufs
      ensures Reached() && rxLog == old(rxLog) + [RxRing.Fill(slot, bytes, len)]
      ensures vrp.RxState() == RxRing.Step(old(vrp.RxState()), RxRing.Fill(slot, bytes, len))
      ensures vrp.Pool() == old(vrp.Pool())
    {
      hide TxRun, RxRun, EptRun;
      ghost var p, rx := vrp.Pool(), vrp.RxState();
      FillProlongs(rx0, rxLog, vrp.slots, rx, RxRing.Fill(slot, bytes, len));
      vrp.RemoteFill(slot, bytes, len);
      rxLog := rxLog + [RxRing.Fill(slot, bytes, len)];
      assert vrp.Pool() == p && vrp.RxState() == RxRing.Step(rx, RxRing.Fill(slot, bytes, len));
    }

    // ----- this side -----

    method Send(src: u32, dst: u32, data: seq<byte>, len: i32, wait: bool,
                pending: bool, rounds: seq<TxMachine.Round>, ioErr: bool)
      returns (ret: Option<int>)
      requires Reached() && TxWaiting.AtDevice(vrp.Pool(), rounds)
      requires SendCheck(src, dst, len) == 0 ==> |data| == len
      modifies this`txLog, vrp`lastSbuf, vrp`used, vrp`numFree, vrp`inDev, vrp`sleepers, vrp`cbOn, vrp`avail, vrp.bufs
      ensures Reached() && vrp.RxState() == old(vrp.RxState())
      ensures (vrp.Pool(), ret) ==
              TxMachine.Send(old(vrp.Pool()), Req(src, dst, data), len, wait, pending, rounds, ioErr)
    {
      hide TxRun, RxRun, EptRun, TxMachine.Send, SendLog;
      ghost var p, rx, r := vrp.Pool(), vrp.RxState(), Req(src, dst, data);
      TxRunPool(tx0, txLog, vrp.rcap, p);
      SendProlongs(tx0, txLog, vrp.rcap, p, r, len, wait, pending, rounds, ioErr);
      ret := vrp.Send(src, dst, data, len, wait, pending, rounds, ioErr);
      assert vrp.RxState() == rx;
      if ret.Some? {
        txLog := txLog + SendLog(p, r, len, wait, pending, rounds, ioErr);
      }
    }

    method RecvDone(addErr: nat -> bool) returns (msgs: nat)
      requires Reached()
      modifies this`rxLog, this`eptLog, vrp`rused, vrp`rposted, vrp`rdropped, vrp`calls, vrp`epts, vrp`kicks
      ensures Reached() && vrp.Pool() == old(vrp.Pool())
      ensures RxRing.StopsAt(old(vrp.RxBufs()), old(vrp.rused), addErr, msgs)
      ensures vrp.RxState() == RxRing.Drained(old(vrp.RxState()), BoundOf(vrp.idr, vrp.epts), msgs)
    {
      hide TxRun, RxRun, EptRun, RxRing.Drained, BoundOf, DrainLog, DispatchLog;
      ghost var p, rx, bound := vrp.Pool(), vrp.RxState(), BoundOf(vrp.idr, vrp.epts);
      msgs := vrp.RecvDone(addErr);
      DrainProlongs(rx0, rxLog, vrp.slots, rx, bound, addErr, msgs);
      DrainDispatches(ept0, eptLog, vrp.idr, vrp.epts, vrp.nextEpt, rx, msgs);
      rxLog := rxLog + DrainLog(rx, bound, addErr, msgs);
      eptLog := eptLog + DispatchLog(rx.bufs, Tried(rx, msgs));
      assert vrp.Pool() == p;
    }

    method CreateEpt(addr: u32, cb: bool, noMem: bool) returns (ept: Option<nat>)
      requires Reached()
      modifies this`eptLog, vrp`idr, vrp`epts, vrp`nextEpt
      ensures Reached() && vrp.Pool() == old(vrp.Pool()) && vrp.RxState() == old(vrp.RxState())
      ensures (vrp.Registry(), ept) == Endpoints.DoCreate(old(vrp.Registry()), addr, cb, noMem)
    {
      hide TxRun, RxRun, EptRun, Endpoints.DoCreate;
      ghost var p, rx := vrp.Pool(), vrp.RxState();
      CreateProlongs(ept0, eptLog, vrp.Registry(), EptsOf(vrp.calls), addr, cb, noMem);
      ept := vrp.CreateEpt(addr, cb, noMem);
      eptLog := eptLog + [Endpoints.Create(addr, cb, noMem)];
      assert vrp.Pool() == p && vrp.RxState() == rx;
    }

    method DestroyEpt(e: nat)
      requires Reached() && e in vrp.epts && vrp.epts[e].addr in vrp.idr && vrp.idr[vrp.epts[e].addr] == e
      modifies this`eptLog, vrp`idr, vrp`epts
      ensures Reached() && vrp.Pool() == old(vrp.Pool()) && vrp.RxState() == old(vrp.RxState())
      ensures vrp.idr == old(vrp.idr) - {old(vrp.epts)[e].addr}
      ensures vrp.epts == Endpoints.AfterDestroy(old(vrp.epts), e)
    {
      hide TxRun, RxRun, EptRun, Endpoints.AfterDestroy;
      ghost var p, rx := vrp.Pool(), vrp.RxState();
      DestroyProlongs(ept0, eptLog, vrp.idr, vrp.epts, vrp.nextEpt, EptsOf(vrp.calls), e);
      vrp.DestroyEpt(e);
      eptLog := eptLog + [Endpoints.Remove(0, e), Endpoints.Clear(0), Endpoints.DropRef(0)];
      assert vrp.Pool() == p && vrp.RxState() == rx;
    }
  }

  /** What holds of every run holds of the object: here, that no slot is in two places of its tx ring. */
  lemma SlotsApart(o: Processor, slot: nat)
    requires o.Reached()
    ensures slot in o.vrp.inDev ==> slot !in o.vrp.used
    ensures forall j: nat, k: nat | j < |o.vrp.avail| && k < |o.vrp.avail| ::
              o.vrp.avail[j].slot == slot == o.vrp.avail[k].slot ==> j == k
    ensures forall j: nat | j < |o.vrp.avail| && o.vrp.avail[j].slot == slot ::
              slot !in o.vrp.inDev && slot !in o.vrp.used
  {
    TxTheorems.SlotsExclusive(o.tx0, o.vrp.rcap, o.tx0.cap, 1, o.txLog, slot);
    var s := TxMachine.Run(o.tx0, o.txLog);
    assert s.p == o.vrp.Pool();
    hide TxMachine.Run;
    forall j: nat | j < |o.vrp.avail| && o.vrp.avail[j].slot == slot
      ensures slot !in o.vrp.inDev && slot !in o.vrp.used
    {
      assert TxTheorems.IsAvail(s, slot);
    }
  }
}

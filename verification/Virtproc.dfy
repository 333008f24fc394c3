/**
 * The bus object itself: one region of memory split into receive and transmit buffers, and the methods
 * that update its fields in place. Each is tied to the function of the protocol it implements.
 */
module Virtproc {
  import opened Common
  import opened Wire
  import TxMachine
  import TxWaiting
  import opened RxRing
  import opened Endpoints
  import opened EndpointCalls

  class VirtprocInfo {
    const slots: nat          // num_bufs / 2
    const rcap: nat           // size of the rx ring
    const bufs: array<byte>   // rx buffers, then tx buffers

    // tx virtqueue and its bookkeeping
    var lastSbuf: nat
    var sleepers: int
    var cbOn: bool
    var numFree: int
    var avail: seq<TxMachine.Token>
    var inDev: set<nat>
    var used: seq<nat>

    // rx virtqueue
    var rposted: seq<nat>
    var rused: seq<RxToken>
    var rdropped: seq<nat>
    var kicks: nat

    // endpoints, and the callbacks made
    var idr: map<nat, nat>
    var epts: map<nat, Ept>
    var nextEpt: nat
    var calls: seq<Call>

    ghost predicate TxOk()
      reads `lastSbuf, `avail, `inDev, `used
    {
      && lastSbuf <= slots
      && (forall j :: 0 <= j < |avail| ==> avail[j].slot < slots && avail[j].len <= BUF_SIZE)
      && (forall i :: i in inDev ==> i < slots)
      && (forall j :: 0 <= j < |used| ==> used[j] < slots)
    }

    ghost predicate RxOk()
      reads `rposted, `rused
    {
      && |rposted| + |rused| <= slots <= rcap
      && (forall j :: 0 <= j < |rposted| ==> rposted[j] < slots)
      && (forall j :: 0 <= j < |rused| ==> rused[j].slot < slots)
    }

    ghost predicate EptsOk()
      reads `idr, `epts, `nextEpt
    {
      && (forall a :: a in idr ==> idr[a] in epts && epts[idr[a]].addr == a)
      && (forall e :: e in epts ==> e < nextEpt && epts[e].refs >= 1 && epts[e].lock.None?)
    }

    ghost predicate Valid()
      reads this
    {
      bufs.Length == 2 * slots * BUF_SIZE && TxOk() && RxOk() && EptsOk()
    }

    /** The i-th 512-byte buffer of the region. */
    ghost function Buf(i: nat): (b: seq<byte>)
      requires bufs.Length == 2 * slots * BUF_SIZE && i < 2 * slots
      reads bufs
      ensures |b| == BUF_SIZE
    {
      bufs[i * BUF_SIZE..i * BUF_SIZE + BUF_SIZE]
    }

    ghost function TxBufs(): (r: seq<seq<byte>>)
      requires bufs.Length == 2 * slots * BUF_SIZE
      reads bufs
      ensures |r| == slots && forall i :: 0 <= i < slots ==> r[i] == Buf(slots + i)
    {
      seq(slots, i requires 0 <= i < slots reads bufs => Buf(slots + i))
    }

    ghost function RxBufs(): (r: seq<seq<byte>>)
      requires bufs.Length == 2 * slots * BUF_SIZE
      reads bufs
      ensures |r| == slots && forall i :: 0 <= i < slots ==> r[i] == Buf(i)
    {
      seq(slots, i requires 0 <= i < slots reads bufs => Buf(i))
    }

    /** The tx side, as the protocol sees it. */
    ghost function Pool(): TxMachine.Pool
      requires Valid()
      reads this, bufs
    {
      TxMachine.Pool(lastSbuf, sleepers, cbOn, numFree, avail, inDev, used, TxBufs())
    }

    /** The rx side, between messages. */
    ghost function RxState(): Rx
      requires Valid()
      reads this, bufs
    {
      Rx(rcap, RxBufs(), rposted, rused, None, rdropped, calls)
    }

    // ----- probe -----

    /** Buffer set-up: half the region for each direction, every rx buffer posted once, tx interrupts off. */
    constructor (rxRing: nat, txRing: nat)
      ensures Valid() && fresh(bufs) && slots == TxMachine.NumSlots(rxRing) && rcap == rxRing
      ensures slots <= rxRing && slots <= 256 && (slots == rxRing || slots == 256) && bufs.Length == 2 * slots * 512
      ensures |rposted| == slots && (forall i: nat :: i < slots ==> rposted[i] == i) && rused == [] && rdropped == []
      ensures lastSbuf == 0 && sleepers == 0 && !cbOn && numFree == txRing && avail == [] && inDev == {} && used == []
      ensures RxRing.Init(RxState(), slots)
      ensures Pool() == TxMachine.Pool(0, 0, false, txRing, [], {}, [], TxBufs())
      ensures forall senders: nat :: TxMachine.Init(TxMachine.Around(Pool(), senders), rxRing, txRing, senders)
      ensures idr == map[] && epts == map[] && nextEpt == 0 && calls == [] && kicks == 0
    {
      var numBufs := if rxRing < 512 / 2 then rxRing * 2 else 512;
      slots, rcap := numBufs / 2, rxRing;
      bufs := new byte[numBufs * BUF_SIZE](_ => 0);
      lastSbuf, sleepers, numFree := 0, 0, txRing;
      avail, inDev, used := [], {}, [];
      rused, rdropped, kicks := [], [], 0;
      idr, epts, nextEpt, calls := map[], map[], 0, [];
      cbOn := true; // the queue starts with interrupts enabled
      rposted := [];
      new;
      var i := 0;
      while i < slots
        invariant 0 <= i <= slots && rposted == seq(i, j => j)
        invariant slots == TxMachine.NumSlots(rxRing) && rcap == rxRing
        invariant bufs.Length == 2 * slots * BUF_SIZE && fresh(bufs)
        invariant lastSbuf == 0 && sleepers == 0 && numFree == txRing && avail == [] && inDev == {} && used == []
        invariant rused == [] && rdropped == [] && calls == [] && kicks == 0
        invariant idr == map[] && epts == map[] && nextEpt == 0
      {
        rposted := rposted + [i];
        i := i + 1;
      }
      cbOn := false;
    }

    // ----- the remote -----

    /** The remote takes the oldest available tx buffer and reads the bytes it was told about. */
    method RemoteTake() returns (frame: seq<byte>)
      requires Valid()
      modifies this`avail, this`inDev
      ensures Valid() && Pool() == TxMachine.PoolTake(old(Pool()))
      ensures avail == (if old(avail) == [] then [] else old(avail)[1..])
      ensures inDev == old(inDev) + (if old(avail) == [] then {} else {old(avail)[0].slot})
      ensures frame == if old(avail) == [] then [] else TxBufs()[old(avail)[0].slot][..old(avail)[0].len]
    {
      if avail == [] {
        return [];
      }
      var tok := avail[0];
      var off := (slots + tok.slot) * BUF_SIZE;
      frame := bufs[off..off + tok.len];
      assert frame == Buf(slots + tok.slot)[..tok.len];
      avail, inDev := avail[1..], inDev + {tok.slot};
    }

    /** The remote returns a tx buffer it has. */
    method RemoteReturn(slot: nat)
      requires Valid() && slot in inDev
      modifies this`inDev, this`used
      ensures Valid() && Pool() == TxMachine.PoolReturn(old(Pool()), slot)
      ensures inDev == old(inDev) - {slot} && used == old(used) + [slot]
    {
      inDev, used := inDev - {slot}, used + [slot];
    }

    /** The remote fills a posted rx buffer and returns it. */
    method RemoteFill(slot: nat, bytes: seq<byte>, len: u32)
      requires Valid() && slot in rposted && |bytes| == BUF_SIZE
      modifies this`rposted, this`rused, bufs
      ensures Valid() && TxBufs() == old(TxBufs()) && RxBufs() == old(RxBufs())[slot := bytes]
      ensures rposted == WithoutFirst(old(rposted), slot) && rused == old(rused) + [RxToken(slot, len)]
    {
      CopyInto(slot, 0, bytes);
      assert old(Buf(slot))[..0] + bytes + old(Buf(slot))[BUF_SIZE..] == bytes;
      WithoutFirstSize(rposted, slot);
      WithoutFirstIn(rposted, slot);
      ghost var was := rposted;
      rposted, rused := WithoutFirst(rposted, slot), rused + [RxToken(slot, len)];
      assert forall j :: 0 <= j < |rposted| ==> rposted[j] in was;
    }

    // ----- sending -----

    /** A slot never handed out, or else the oldest one the remote returned, which frees its descriptor. */
    method GetATxBuf() returns (msg: Option<nat>)
      requires Valid()
      modifies this`lastSbuf, this`used, this`numFree
      ensures Valid()
      ensures (Pool(), msg) == TxMachine.GetTxBuf(old(Pool()))
      ensures msg.Some? ==> msg.value < slots
      ensures old(lastSbuf) < slots ==> msg == Some(old(lastSbuf)) && lastSbuf == old(lastSbuf) + 1
      ensures old(lastSbuf) < slots || old(used) == [] ==> used == old(used) && numFree == old(numFree)
      ensures old(lastSbuf) >= slots ==> lastSbuf == old(lastSbuf) && (msg.None? <==> old(used) == [])
      ensures old(lastSbuf) >= slots && old(used) != [] ==>
                msg == Some(old(used)[0]) && used == old(used)[1..] && numFree == old(numFree) + 1
    {
      if lastSbuf < slots {
        msg := Some(lastSbuf);
        lastSbuf := lastSbuf + 1;
      } else if used == [] {
        msg := None;
      } else {
        msg := Some(used[0]);
        used := used[1..];
        numFree := numFree + 1;
      }
    }

    method RpmsgUprefSleepers()
      requires Valid()
      modifies this`sleepers, this`cbOn
      ensures Valid()
      ensures Pool() == TxMachine.UprefSleepers(old(Pool()))
      ensures sleepers == old(sleepers) + 1 && cbOn == (old(cbOn) || old(sleepers) == 0)
    {
      sleepers := sleepers + 1;
      if sleepers == 1 {
        cbOn := true;
      }
    }

    method RpmsgDownrefSleepers()
      requires Valid()
      modifies this`sleepers, this`cbOn
      ensures Valid()
      ensures Pool() == TxMachine.DownrefSleepers(old(Pool()))
      ensures sleepers == old(sleepers) - 1 && cbOn == (old(cbOn) && old(sleepers) != 1)
    {
      sleepers := sleepers - 1;
      if sleepers == 0 {
        cbOn := false;
      }
    }

    /** Copy bytes into a buffer of the region; no other buffer changes. */
    method CopyInto(i: nat, at: nat, data: seq<byte>)
      requires bufs.Length == 2 * slots * BUF_SIZE && i < 2 * slots && at + |data| <= BUF_SIZE
      modifies bufs
      ensures Buf(i) == old(Buf(i))[..at] + data + old(Buf(i))[at + |data|..]
      ensures forall j: nat :: j < 2 * slots && j != i ==> Buf(j) == old(Buf(j))
    {
      var off := i * BUF_SIZE + at;
      forall k | 0 <= k < |data| {
        bufs[off + k] := data[k];
      }
      assert forall k :: 0 <= k < bufs.Length ==>
        bufs[k] == if off <= k < off + |data| then data[k - off] else old(bufs[k]);
      assert forall k :: 0 <= k < BUF_SIZE ==>
        Buf(i)[k] == if at <= k < at + |data| then data[k - at] else old(Buf(i))[k];
    }

    method CopyToTx(slot: nat, at: nat, data: seq<byte>)
      requires Valid() && slot < slots && at + |data| <= BUF_SIZE
      modifies bufs
      ensures RxBufs() == old(RxBufs())
      ensures var b := old(TxBufs())[slot];
              TxBufs() == old(TxBufs())[slot := b[..at] + data + b[at + |data|..]]
    {
      CopyInto(slots + slot, at, data);
    }

    /** Fill in the header and copy the payload. */
    method FillMessage(slot: nat, r: Req)
      requires Valid() && slot < slots && HDR_SIZE + |r.data| <= BUF_SIZE
      modifies bufs
      ensures Valid() && RxBufs() == old(RxBufs())
      ensures Pool() == TxMachine.WritePayload(TxMachine.WriteHeader(old(Pool()), slot, r), slot, r)
      ensures TxBufs() == old(TxBufs())[slot := Frame(r) + old(TxBufs())[slot][16 + |r.data|..]]
    {
      TxWaiting.WrittenFrame(Pool(), slot, r);
      CopyToTx(slot, 0, Encode(HeaderOf(r)));
      assert old(TxBufs())[slot][..0] + Encode(HeaderOf(r)) == Encode(HeaderOf(r));
      assert Pool() == TxMachine.WriteHeader(old(Pool()), slot, r);
      CopyToTx(slot, HDR_SIZE, r.data);
    }

    method VirtqueueAddOutbuf(slot: nat, len: nat, ioErr: bool) returns (ok: bool)
      requires Valid() && slot < slots && len <= BUF_SIZE
      modifies this`avail, this`numFree
      ensures Valid()
      ensures (Pool(), ok) == TxMachine.AddOutbuf(old(Pool()), slot, len, ioErr)
      ensures ok <==> !ioErr && old(numFree) > 0
      ensures avail == old(avail) + (if ok then [TxMachine.Token(slot, len)] else [])
      ensures numFree == old(numFree) - (if ok then 1 else 0)
    {
      if ioErr || numFree <= 0 {
        return false;
      }
      avail := avail + [TxMachine.Token(slot, len)];
      numFree := numFree - 1;
      return true;
    }

    /**
     * One wait: the condition is tried before sleeping, and again when the device returns a buffer, the
     * timer runs out or a signal arrives. With a signal pending there is no sleep and the timer does not run.
     */
    method WaitForBuf(round: TxMachine.Round, pending: bool) returns (msg: Option<nat>, timedOut: bool)
      requires Valid() && (round.Returned? ==> round.slot in inDev)
      requires lastSbuf == slots && used == []
      modifies this`lastSbuf, this`used, this`numFree, this`inDev
      ensures Valid() && lastSbuf == slots && used == []
      ensures timedOut <==> round.Expired? && !pending
      ensures msg == if round.Returned? then Some(round.slot) else None
      ensures round.Returned? ==> inDev == old(inDev) - {round.slot} && numFree == old(numFree) + 1
      ensures !round.Returned? ==> inDev == old(inDev) && numFree == old(numFree)
    {
      timedOut := false;
      msg := GetATxBuf();
      if msg.Some? {
        return;
      }
      if round.Returned? {
        inDev, used := inDev - {round.slot}, used + [round.slot];
      }
      msg := GetATxBuf();
      timedOut := msg.None? && round.Expired? && !pending;
    }

    /** Fill a buffer this sender holds and queue it. */
    method Transmit(slot: nat, r: Req, ioErr: bool) returns (ret: int)
      requires Valid() && slot < slots && HDR_SIZE + |r.data| <= BUF_SIZE
      modifies this`avail, this`numFree, bufs
      ensures Valid() && RxBufs() == old(RxBufs())
      ensures (Pool(), ret) == TxMachine.Transmit(old(Pool()), slot, r, ioErr)
    {
      FillMessage(slot, r);
      var ok := VirtqueueAddOutbuf(slot, HDR_SIZE + |r.data|, ioErr);
      ret := if ok then 0 else if ioErr then EIO else ENOSPC;
    }

    /**
     * Wait, again and again, until there is a buffer or the first wait has timed out. `rounds` tells what
     * happens during each wait; `waiting` is left true when the account stops before the send does.
     */
    method AwaitBuf(pending: bool, rounds: seq<TxMachine.Round>) returns (msg: Option<nat>, waiting: bool)
      requires Valid() && lastSbuf == slots && used == []
      requires sleepers >= 0 && (cbOn <==> sleepers > 0) && TxWaiting.AtDevice(Pool(), rounds)
      modifies this`lastSbuf, this`used, this`numFree, this`inDev, this`sleepers, this`cbOn
      ensures Valid() && lastSbuf == slots && used == []
      ensures sleepers == old(sleepers) && cbOn == old(cbOn)
      ensures var k := TxMachine.FirstReturn(rounds);
              if !TxMachine.TimesOut(pending, rounds) && k < |rounds| then
                && !waiting && msg == Some(rounds[k].slot)
                && inDev == old(inDev) - {rounds[k].slot} && numFree == old(numFree) + 1
              else
                && msg == None && waiting == !TxMachine.TimesOut(pending, rounds)
                && inDev == old(inDev) && numFree == old(numFree)
    {
      msg, waiting := None, true;
      var i, signalled := 0, pending;
      while msg.None?
        invariant 0 <= i <= |rounds| && Valid() && lastSbuf == slots && used == []
        invariant sleepers == old(sleepers) && cbOn == old(cbOn)
        invariant signalled <==> pending || i > 0
        invariant i > 0 ==> !TxMachine.TimesOut(pending, rounds)
        invariant msg.None? ==> inDev == old(inDev) && numFree == old(numFree)
        invariant msg.None? ==> waiting && forall j :: 0 <= j < i ==> !rounds[j].Returned?
        invariant msg.Some? ==> !waiting && i > 0 && (forall j :: 0 <= j < i - 1 ==> !rounds[j].Returned?)
        invariant msg.Some? ==> rounds[i - 1] == TxMachine.Returned(msg.value)
        invariant msg.Some? ==> inDev == old(inDev) - {msg.value} && numFree == old(numFree) + 1
        decreases |rounds| - i
      {
        if i == |rounds| {
          return;
        }
        RpmsgUprefSleepers();
        var timedOut;
        msg, timedOut := WaitForBuf(rounds[i], signalled);
        waiting := msg.None?;
        RpmsgDownrefSleepers();
        if timedOut {
          return None, false;
        }
        signalled := true; // what ended the wait, if no buffer did, was a signal, and it stays pending
        i := i + 1;
      }
    }

    /**
     * `rpmsg_send_offchannel_raw`, `pending` telling whether a signal is pending on entry, and `rounds` what
     * happens during its waits; the buffers returned are with the remote. None: still waiting when the account ends.
     */
    method Send(src: u32, dst: u32, data: seq<byte>, len: i32, wait: bool,
                pending: bool, rounds: seq<TxMachine.Round>, ioErr: bool)
      returns (ret: Option<int>)
      requires Valid() && sleepers >= 0 && (cbOn <==> sleepers > 0)
      requires SendCheck(src, dst, len) == 0 ==> |data| == len
      requires TxWaiting.AtDevice(Pool(), rounds)
      modifies this`lastSbuf, this`used, this`numFree, this`inDev, this`sleepers, this`cbOn, this`avail, bufs
      ensures Valid() && RxBufs() == old(RxBufs())
      ensures (Pool(), ret) == TxMachine.Send(old(Pool()), Req(src, dst, data), len, wait, pending, rounds, ioErr)
    {
      if src == ADDR_ANY || dst == ADDR_ANY {
        return Some(EINVAL);
      }
      if ToU64(len) > BUF_SIZE - HDR_SIZE {
        return Some(EMSGSIZE);
      }
      var msg := GetATxBuf();
      if msg.None? && !wait {
        return Some(ENOMEM);
      }
      if msg.None? {
        var waiting;
        msg, waiting := AwaitBuf(pending, rounds);
        if msg.None? {
          return if waiting then None else Some(ERESTARTSYS);
        }
      }
      var err := Transmit(msg.value, Req(src, dst, data), ioErr);
      return Some(err);
    }

    // ----- endpoints -----

    /** The registry with a single context, idle. */
    ghost function Registry(): Endpoints.State
      reads this
    {
      Endpoints.State(idr, epts, nextEpt, [Idle], map[], {}, {}, [], [], false)
    }

    method CreateEpt(addr: u32, cb: bool, noMem: bool) returns (ept: Option<nat>)
      requires Valid()
      modifies this`idr, this`epts, this`nextEpt
      ensures Valid()
      ensures (Registry(), ept) == DoCreate(old(Registry()), addr, cb, noMem)
      ensures ept.None? <==>
                noMem || (if addr == 0xFFFF_FFFF then forall i: nat :: 1024 <= i <= 0x7FFF_FFFF ==> i in old(idr)
                          else addr > 0x7FFF_FFFF || addr in old(idr))
      ensures ept.None? ==> idr == old(idr) && epts == old(epts) && nextEpt == old(nextEpt)
      ensures ept.Some? ==>
                && ept.value == old(nextEpt) && nextEpt == old(nextEpt) + 1 && ept.value in epts
                && var a := epts[ept.value].addr;
                   && epts == old(epts)[ept.value := Ept(a, cb, 1, None)] && idr == old(idr)[a := ept.value]
                   && a !in old(idr) && (addr != 0xFFFF_FFFF ==> a == addr)
                   && (addr == 0xFFFF_FFFF ==> 1024 <= a && forall i: nat :: 1024 <= i < a ==> i in old(idr))
    {
      AddressChosen(idr, addr);
      if noMem {
        return None;
      }
      var idMin, idMax := ToInt(addr), ToInt((addr + 1) % 0x1_0000_0000);
      if addr == ADDR_ANY {
        idMin, idMax := RESERVED_ADDRESSES, 0;
      }
      var id := IdrAlloc(idr, idMin, idMax);
      if id.None? {
        return None;
      }
      idr := idr[id.value := nextEpt];
      epts := epts[nextEpt := Ept(id.value, cb, 1, None)];
      ept := Some(nextEpt);
      nextEpt := nextEpt + 1;
    }

    /** Unbind, clear the callback, drop the creator's reference. */
    method DestroyEpt(e: nat)
      requires Valid() && e in epts && epts[e].addr in idr && idr[epts[e].addr] == e
      modifies this`idr, this`epts
      ensures Valid()
      ensures idr == old(idr) - {old(epts)[e].addr}
      ensures epts == AfterDestroy(old(epts), e)
      ensures var x := old(epts)[e];
              epts == if x.refs == 1 then old(epts) - {e} else old(epts)[e := x.(cb := false, refs := x.refs - 1)]
    {
      idr := idr - {epts[e].addr};
      epts := epts[e := epts[e].(cb := false)];
      if epts[e].refs - 1 == 0 {
        epts := epts - {e};
      } else {
        epts := epts[e := epts[e].(refs := epts[e].refs - 1)];
      }
    }

    // ----- receiving -----

    /** Look the destination up, hold the endpoint while its callback runs, and let it go again. */
    method DispatchMsg(buf: seq<byte>)
      requires Valid() && |buf| == BUF_SIZE
      modifies this`calls, this`epts
      ensures Valid() && epts == old(epts)
      ensures calls == old(calls) + Dispatch(BoundOf(idr, epts), buf)
      ensures var dst := U32At(buf, 4);
              calls == if dst in idr && epts[idr[dst]].cb then
                         old(calls) + [Call(idr[dst], buf[16..], U16At(buf, 12), U32At(buf, 0))]
                       else
                         old(calls)
    {
      HeaderAt(buf);
      var h := Decode(buf[..HDR_SIZE]);
      if h.dst in idr {
        var e := idr[h.dst];
        epts := epts[e := epts[e].(refs := epts[e].refs + 1)];
        if epts[e].cb {
          calls := calls + [Call(e, buf[HDR_SIZE..], h.len, h.src)];
        }
        epts := epts[e := epts[e].(refs := epts[e].refs - 1)];
        assert epts == old(epts);
      }
    }

    method VirtqueueAddInbuf(slot: nat, ioErr: bool) returns (ok: bool)
      requires slot < slots
      modifies this`rposted
      ensures ok <==> !ioErr && old(|rposted|) + |rused| < rcap
      ensures rposted == old(rposted) + (if ok then [slot] else [])
    {
      if ioErr || |rposted| + |rused| >= rcap {
        return false;
      }
      rposted := rposted + [slot];
      return true;
    }

    /** The oldest used rx buffer, which gives its descriptor up. */
    method VirtqueueGetBuf() returns (msg: Option<RxToken>)
      requires Valid()
      modifies this`rused
      ensures Valid()
      ensures old(rused) == [] ==> msg.None? && rused == []
      ensures old(rused) != [] ==> msg == Some(old(rused)[0]) && rused == old(rused)[1..]
    {
      if rused == [] {
        return None;
      }
      msg := Some(rused[0]);
      rused := rused[1..];
    }

    /** The sanity check on the reported lengths. */
    method InboundOk(tok: RxToken) returns (ok: bool, buf: seq<byte>)
      requires Valid() && tok.slot < slots
      ensures buf == RxBufs()[tok.slot] && |buf| == BUF_SIZE
      ensures ok <==> Accepted(RxBufs(), tok)
      ensures ok <==> tok.len < 16 || (tok.len <= 512 && U16At(buf, 12) <= tok.len - 16)
    {
      var off := tok.slot * BUF_SIZE;
      buf := bufs[off..off + BUF_SIZE];
      assert buf == RxBufs()[tok.slot];
      var h := Decode(buf[..HDR_SIZE]);
      HeaderAt(buf);
      AcceptsExact(tok.len, h.len);
      ok := !(tok.len > BUF_SIZE || h.len > (tok.len - HDR_SIZE) % 0x1_0000_0000_0000_0000);
    }

    /** One message; there is a descriptor for its buffer, as it has just given one up. */
    method RecvOne(tok: RxToken, ioErr: bool) returns (err: int)
      requires Valid() && tok.slot < slots && |rposted| + |rused| < slots
      modifies this`rposted, this`rdropped, this`calls, this`epts
      ensures Valid() && epts == old(epts)
      ensures err == 0 <==> Accepted(RxBufs(), tok) && !ioErr
      ensures var fits := tok.len < 16 || (tok.len <= 512 && U16At(RxBufs()[tok.slot], 12) <= tok.len - 16);
              err == if !fits then -22 else if ioErr then -5 else 0
      ensures calls == old(calls) + CallsFor(BoundOf(idr, epts), RxBufs(), tok)
      ensures rposted == old(rposted) + (if err == 0 then [tok.slot] else [])
      ensures rdropped == old(rdropped) + (if err == 0 then [] else [tok.slot])
    {
      hide Dispatch, BoundOf, TxOk, EptsOk;
      var fits, buf := InboundOk(tok);
      if !fits {
        rdropped := rdropped + [tok.slot];
        return EINVAL;
      }
      DispatchMsg(buf);
      var ok := VirtqueueAddInbuf(tok.slot, ioErr);
      if !ok {
        rdropped := rdropped + [tok.slot];
        return EIO;
      }
      return 0;
    }

    /** The receive loop, from the first used buffer to the first failure or the end of the ring. */
    method RecvLoop(addErr: nat -> bool) returns (msgs: nat)
      requires Valid() && rused != []
      modifies this`rused, this`rposted, this`rdropped, this`calls, this`epts
      ensures Valid() && epts == old(epts)
      ensures StopsAt(RxBufs(), old(rused), addErr, msgs)
      ensures rposted == old(rposted) + SlotsOf(old(rused)[..msgs])
      ensures msgs < |old(rused)| ==> rused == old(rused)[msgs + 1..]
      ensures msgs < |old(rused)| ==> rdropped == old(rdropped) + [old(rused)[msgs].slot]
      ensures msgs < |old(rused)| ==>
                calls == old(calls) + AllCalls(BoundOf(idr, epts), RxBufs(), old(rused)[..msgs + 1])
      ensures msgs == |old(rused)| ==> rused == [] && rdropped == old(rdropped)
      ensures msgs == |old(rused)| ==> calls == old(calls) + AllCalls(BoundOf(idr, epts), RxBufs(), old(rused)[..msgs])
    {
      hide AllCalls, SlotsOf, CallsFor, Accepted, BoundOf, TxOk, EptsOk;
      msgs := 0;
      NoneYet(BoundOf(idr, epts), RxBufs(), rused);
      ghost var all, bound := rused, BoundOf(idr, epts);
      var msg := VirtqueueGetBuf();
      while msg.Some?
        invariant Valid() && epts == old(epts) && msgs <= |all|
        invariant msg.Some? ==> msgs < |all| && msg.value == all[msgs] && msg.value.slot < slots
        invariant msg.Some? ==> rused == all[msgs + 1..]
        invariant msg.None? ==> msgs == |all| && rused == []
        invariant msg.Some? ==> |rposted| + |rused| < slots
        invariant rposted == old(rposted) + SlotsOf(all[..msgs]) && rdropped == old(rdropped)
        invariant forall i: nat :: i < msgs ==> Handled(RxBufs(), all, addErr, i)
        invariant calls == old(calls) + AllCalls(bound, RxBufs(), all[..msgs])
        decreases |rused|, msg.Some?
      {
        var err := RecvOne(msg.value, addErr(msgs));
        OneMore(bound, RxBufs(), all, msgs);
        if err != 0 {
          break;
        }
        msgs := msgs + 1;
        msg := VirtqueueGetBuf();
      }
    }

    /**
     * Drain the used ring in order up to the first message that fails, and kick the remote exactly when
     * something was handled. With the remote quiet the used ring shrinks, so the loop ends.
     */
    method RecvDone(addErr: nat -> bool) returns (msgs: nat)
      requires Valid()
      modifies this`rused, this`rposted, this`rdropped, this`calls, this`epts, this`kicks
      ensures Valid() && epts == old(epts)
      ensures StopsAt(old(RxBufs()), old(rused), addErr, msgs)
      ensures RxState() == Drained(old(RxState()), BoundOf(idr, epts), msgs)
      ensures kicks == old(kicks) + (if msgs > 0 then 1 else 0)
    {
      hide AllCalls, SlotsOf, Accepted, BoundOf;
      if rused == [] {
        NoneYet(BoundOf(idr, epts), RxBufs(), rused);
        return 0;
      }
      msgs := RecvLoop(addErr);
      MakeDrained(old(RxState()), RxState(), BoundOf(idr, epts), msgs);
      if msgs > 0 {
        kicks := kicks + 1;
      }
    }
  }

  /** A drain ends at the first message not handled, or at the end of the ring. */
  lemma MakeDrained(rx0: Rx, rx: Rx, bound: map<nat, Binding>, k: nat)
    requires k <= |rx0.used| && rx.cap == rx0.cap && rx.bufs == rx0.bufs && rx.hand == rx0.hand
    requires rx.posted == rx0.posted + SlotsOf(rx0.used[..k])
    requires k < |rx0.used| ==> rx.used == rx0.used[k + 1..] && rx.dropped == rx0.dropped + [rx0.used[k].slot]
    requires k < |rx0.used| ==> rx.calls == rx0.calls + AllCalls(bound, rx0.bufs, rx0.used[..k + 1])
    requires k == |rx0.used| ==> rx.used == [] && rx.dropped == rx0.dropped
    requires k == |rx0.used| ==> rx.calls == rx0.calls + AllCalls(bound, rx0.bufs, rx0.used[..k])
    ensures rx == Drained(rx0, bound, k)
  {
    if k < |rx0.used| {
      assert SlotsOf(rx0.used[k..k + 1]) == [rx0.used[k].slot];
    } else {
      assert SlotsOf(rx0.used[k..k]) == [] && rx0.dropped + [] == rx0.dropped;
    }
  }

  lemma OneMore(bound: map<nat, Binding>, bufs: seq<seq<byte>>, all: seq<RxToken>, k: nat)
    requires k < |all|
    ensures AllCalls(bound, bufs, all[..k + 1]) == AllCalls(bound, bufs, all[..k]) + CallsFor(bound, bufs, all[k])
    ensures SlotsOf(all[..k + 1]) == SlotsOf(all[..k]) + [all[k].slot]
  {
    assert all[..k + 1][..k] == all[..k];
  }

  lemma NoneYet(bound: map<nat, Binding>, bufs: seq<seq<byte>>, all: seq<RxToken>)
    ensures AllCalls(bound, bufs, all[..0]) == [] && SlotsOf(all[..0]) == [] && SlotsOf(all[|all|..]) == []
  {
  }
}

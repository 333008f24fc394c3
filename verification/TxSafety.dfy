/** The invariant of the transmission protocol and its preservation by every step. */
module TxSafety {
  import opened Common
  import opened Wire
  import opened TxMachine

  // ----- the invariant, by the parts of the state it relates -----

  /** Sleepers are counted, callbacks are on exactly while there are some, and slots are conserved. */
  ghost predicate Counts(s: State) {
    && s.p.sleepers == |Members(s.pcs, Bracketed)|
    && (s.p.cbOn <==> s.p.sleepers > 0)
    && s.p.numFree >= 0
    && s.p.lastSbuf == |Members(s.pcs, Holding)| + (s.cap - s.p.numFree) + s.failed
  }

  /** A descriptor is taken for every buffer in the ring. */
  ghost predicate RingCount(s: State) {
    s.cap - s.p.numFree == |s.p.avail| + |s.p.inDev| + |s.p.used|
  }

  ghost predicate FreshOk(owner: seq<Owner>, last: nat) {
    last <= |owner| && forall i: nat :: i < |owner| ==> (last <= i ==> owner[i].Fresh?)
  }

  ghost predicate SendersOk(owner: seq<Owner>, pcs: seq<Pc>) {
    forall t: nat :: t < |pcs| && Holding(pcs[t]) ==>
      SlotOf(pcs[t]).value < |owner| && owner[SlotOf(pcs[t]).value] == Sender(t)
  }

  ghost predicate AvailOk(owner: seq<Owner>, avail: seq<Token>, base: nat) {
    forall j: nat :: j < |avail| ==> avail[j].slot < |owner| && owner[avail[j].slot] == Avail(base + j)
  }

  ghost predicate DevOk(owner: seq<Owner>, inDev: set<nat>) {
    forall i: nat :: i in inDev ==> i < |owner| && owner[i].Device?
  }

  ghost predicate UsedOk(owner: seq<Owner>, used: seq<nat>, popped: nat) {
    forall j: nat :: j < |used| ==> used[j] < |owner| && owner[used[j]].Used? && owner[used[j]].pos == popped + j
  }

  /** The buffer of every slot in the ring still starts with the frame it was queued with. */
  ghost predicate BufsOk(owner: seq<Owner>, sbufs: seq<seq<byte>>, sent: seq<Sent>) {
    && |owner| == |sbufs|
    && (forall i: nat :: i < |sbufs| ==> |sbufs[i]| == BUF_SIZE)
    && (forall i: nat :: i < |owner| && InRing(owner[i]) ==>
          owner[i].k < |sent| && Frame(sent[owner[i].k].req) <= sbufs[i])
  }

  /** What the remote has read, followed by what is available to it, is what was sent. */
  ghost predicate LogOk(sent: seq<Sent>, received: seq<seq<byte>>, avail: seq<Token>) {
    && |sent| == |received| + |avail|
    && (forall k: nat :: k < |received| ==> received[k] == Frame(sent[k].req))
    && (forall j: nat :: j < |avail| ==>
          avail[j] == Token(sent[|received| + j].slot, |Frame(sent[|received| + j].req)|))
    && (forall k: nat :: k < |sent| ==> Sendable(sent[k].req))
  }

  ghost predicate DraftOk(pc: Pc, sbufs: seq<seq<byte>>) {
    && (!pc.Out? ==> Sendable(pc.req))
    && (pc.Finish? && pc.timedOut ==> pc.got.None?)
    && (pc.Down? && pc.timeout ==> pc.msg.None?)
    && (pc.HdrDone? ==> pc.slot < |sbufs| && Encode(HeaderOf(pc.req)) <= sbufs[pc.slot])
    && (pc.Filled? ==> pc.slot < |sbufs| && Frame(pc.req) <= sbufs[pc.slot])
  }

  ghost predicate DraftsOk(pcs: seq<Pc>, sbufs: seq<seq<byte>>) {
    forall t: nat :: t < |pcs| ==> DraftOk(pcs[t], sbufs)
  }

  predicate MayQueue(pc: Pc) {
    pc.Join? || pc.Check? || pc.Sched? || pc.Finish?
  }

  ghost predicate QueueOk(sendq: set<nat>, pcs: seq<Pc>) {
    forall t :: t in sendq ==> t < |pcs| && MayQueue(pcs[t])
  }

  /** Nothing to wake up for, or a wake-up on its way. */
  predicate Covered(s: State) {
    s.p.lastSbuf == |s.p.sbufs| && (s.p.used == [] || s.pending || s.owed)
  }

  ghost predicate WakeOk(s: State) {
    forall t :: Asleep(s, t) ==> Covered(s)
  }

  ghost predicate Inv(s: State) {
    && Counts(s)
    && RingCount(s)
    && FreshOk(s.owner, s.p.lastSbuf)
    && SendersOk(s.owner, s.pcs)
    && AvailOk(s.owner, s.p.avail, |s.received|)
    && DevOk(s.owner, s.p.inDev)
    && UsedOk(s.owner, s.p.used, s.popped)
    && BufsOk(s.owner, s.p.sbufs, s.sent)
    && LogOk(s.sent, s.received, s.p.avail)
    && DraftsOk(s.pcs, s.p.sbufs)
    && QueueOk(s.sendq, s.pcs)
    && WakeOk(s)
  }

  lemma InitInv(s: State, rxRing: nat, txRing: nat, senders: nat)
    requires Init(s, rxRing, txRing, senders)
    ensures Inv(s)
  {
    MembersNone(s.pcs, Bracketed);
    MembersNone(s.pcs, Holding);
  }

  // ----- the counts -----

  lemma CountsMove(s: State, s': State, t: nat, pc: Pc)
    requires Counts(s) && t < |s.pcs| && s'.pcs == s.pcs[t := pc] && s'.cap == s.cap
    requires s'.p.sleepers == s.p.sleepers - (if Bracketed(s.pcs[t]) then 1 else 0) + (if Bracketed(pc) then 1 else 0)
    requires s'.p.cbOn <==> s'.p.sleepers > 0
    requires s'.p.numFree >= 0
    requires s'.p.lastSbuf - s'.failed + s'.p.numFree ==
             s.p.lastSbuf - s.failed + s.p.numFree
             - (if Holding(s.pcs[t]) then 1 else 0) + (if Holding(pc) then 1 else 0)
    ensures Counts(s')
  {
    MembersUpdate(s.pcs, Bracketed, t, pc);
    MembersUpdate(s.pcs, Holding, t, pc);
  }

  // ----- steps of one sender that leave slots and rings alone -----

  lemma SendersMove(owner: seq<Owner>, pcs: seq<Pc>, t: nat, pc: Pc)
    requires SendersOk(owner, pcs) && t < |pcs| && SlotOf(pc) == SlotOf(pcs[t])
    ensures SendersOk(owner, pcs[t := pc])
  {
  }

  lemma WakeMove(s: State, s': State, t: nat, pc: Pc)
    requires WakeOk(s) && t < |s.pcs| && s'.pcs == s.pcs[t := pc]
    requires s'.sendq <= s.sendq + {t}
    requires Covered(s) ==> Covered(s')
    requires pc.Sched? ==> Covered(s')
    ensures WakeOk(s')
  {
    forall u | Asleep(s', u) ensures Covered(s') {
      if u != t { assert Asleep(s, u); }
    }
  }

  lemma Move(s: State, s': State, t: nat, pc: Pc)
    requires Inv(s) && t < |s.pcs| && SlotOf(pc) == SlotOf(s.pcs[t])
    requires s' == s.(pcs := s.pcs[t := pc], sendq := s'.sendq,
                      p := s.p.(sleepers := s'.p.sleepers, cbOn := s'.p.cbOn))
    requires s'.p.sleepers == s.p.sleepers - (if Bracketed(s.pcs[t]) then 1 else 0) + (if Bracketed(pc) then 1 else 0)
    requires s'.p.cbOn <==> s'.p.sleepers > 0
    requires s'.sendq <= s.sendq + {t} && (t in s'.sendq ==> MayQueue(pc))
    requires DraftOk(pc, s.p.sbufs) && (pc.Sched? ==> Covered(s))
    ensures Inv(s')
  {
    CountsMove(s, s', t, pc);
    SendersMove(s.owner, s.pcs, t, pc);
    WakeMove(s, s', t, pc);
  }

  /** While some sender is between upref and downref the device is asked for interrupts. */
  lemma Awake(s: State, t: nat)
    requires Counts(s) && t < |s.pcs| && Bracketed(s.pcs[t])
    ensures s.p.sleepers >= 1 && s.p.cbOn
  {
    MembersSome(s.pcs, Bracketed, t);
  }

  lemma BracketStep(s: State, a: Action)
    requires Inv(s) && (a.Enter? || a.Upref? || a.Downref?)
    ensures Inv(Step(s, a))
  {
    hide Frame, Encode, SendersOk, AvailOk, DevOk, UsedOk, BufsOk, LogOk, FreshOk;
    var s' := Step(s, a);
    if s' != s {
      if a.Downref? { Awake(s, a.t); }
      Move(s, s', a.t, s'.pcs[a.t]);
    }
  }

  lemma QueueingStep(s: State, a: Action)
    requires Inv(s) && (a.JoinQueue? || a.Leave? || a.FinishWait?)
    ensures Inv(Step(s, a))
  {
    hide Frame, Encode;
    var s' := Step(s, a);
    if s' != s {
      Awake(s, a.t);
      Move(s, s', a.t, s'.pcs[a.t]);
    }
  }

  // ----- moving one slot from one owner to another -----

  lemma AvailKeep(owner: seq<Owner>, avail: seq<Token>, base: nat, i: nat, o: Owner)
    requires AvailOk(owner, avail, base) && i < |owner| && !owner[i].Avail? && !o.Avail?
    ensures AvailOk(owner[i := o], avail, base)
  {
  }

  lemma UsedKeep(owner: seq<Owner>, used: seq<nat>, popped: nat, i: nat, o: Owner)
    requires UsedOk(owner, used, popped) && i < |owner| && !owner[i].Used? && !o.Used?
    ensures UsedOk(owner[i := o], used, popped)
  {
  }

  lemma SendersKeep(owner: seq<Owner>, pcs: seq<Pc>, i: nat, o: Owner)
    requires SendersOk(owner, pcs) && i < |owner| && !owner[i].Sender? && !o.Sender?
    ensures SendersOk(owner[i := o], pcs)
  {
  }

  lemma DevKeep(owner: seq<Owner>, inDev: set<nat>, i: nat, o: Owner)
    requires DevOk(owner, inDev) && i < |owner| && !owner[i].Device? && !o.Device?
    ensures DevOk(owner[i := o], inDev)
  {
  }

  lemma FreshKeep(owner: seq<Owner>, last: nat, i: nat, o: Owner)
    requires FreshOk(owner, last) && i < |owner| && !owner[i].Fresh? && !o.Fresh?
    ensures FreshOk(owner[i := o], last)
  {
  }

  lemma BufsKeep(owner: seq<Owner>, sbufs: seq<seq<byte>>, sent: seq<Sent>, i: nat, o: Owner)
    requires BufsOk(owner, sbufs, sent) && i < |owner| && (InRing(o) ==> InRing(owner[i]) && o.k == owner[i].k)
    ensures BufsOk(owner[i := o], sbufs, sent)
  {
  }

  lemma SendersTake(owner: seq<Owner>, pcs: seq<Pc>, t: nat, pc: Pc, slot: nat)
    requires SendersOk(owner, pcs) && t < |pcs| && !Holding(pcs[t]) && SlotOf(pc) == Some(slot)
    requires slot < |owner| && !owner[slot].Sender?
    ensures SendersOk(owner[slot := Sender(t)], pcs[t := pc])
  {
  }

  lemma SendersGive(owner: seq<Owner>, pcs: seq<Pc>, t: nat, pc: Pc, o: Owner)
    requires SendersOk(owner, pcs) && t < |pcs| && Holding(pcs[t]) && !Holding(pc) && !o.Sender?
    ensures SlotOf(pcs[t]).value < |owner| && owner[SlotOf(pcs[t]).value] == Sender(t)
    ensures SendersOk(owner[SlotOf(pcs[t]).value := o], pcs[t := pc])
  {
  }

  // ----- get_a_tx_buf -----

  lemma TakeNew(s: State, s': State, t: nat, pc: Pc)
    requires Inv(s) && t < |s.pcs| && !Holding(s.pcs[t]) && s.p.lastSbuf < |s.p.sbufs|
    requires SlotOf(pc) == Some(s.p.lastSbuf) && Bracketed(pc) == Bracketed(s.pcs[t])
    requires s' == s.(pcs := s.pcs[t := pc], p := s.p.(lastSbuf := s.p.lastSbuf + 1),
                      owner := s.owner[s.p.lastSbuf := Sender(t)])
    requires DraftOk(pc, s.p.sbufs) && (t in s.sendq ==> MayQueue(pc))
    ensures Inv(s')
  {
    hide Frame, Encode;
    assert s.p.lastSbuf < |s.owner|;
    hide AvailOk, UsedOk, BufsOk, LogOk, SendersOk;
    CountsMove(s, s', t, pc);
    var i := s.p.lastSbuf;
    AvailKeep(s.owner, s.p.avail, |s.received|, i, Sender(t));
    UsedKeep(s.owner, s.p.used, s.popped, i, Sender(t));
    BufsKeep(s.owner, s.p.sbufs, s.sent, i, Sender(t));
    SendersTake(s.owner, s.pcs, t, pc, i);
    WakeMove(s, s', t, pc);
  }

  lemma UsedPop(owner: seq<Owner>, used: seq<nat>, popped: nat, o: Owner)
    requires UsedOk(owner, used, popped) && used != [] && !o.Used?
    ensures used[0] < |owner| && owner[used[0]].Used?
    ensures UsedOk(owner[used[0] := o], used[1..], popped + 1)
  {
  }

  lemma TakeUsed(s: State, s': State, t: nat, pc: Pc)
    requires Inv(s) && t < |s.pcs| && !Holding(s.pcs[t]) && s.p.lastSbuf == |s.p.sbufs| && s.p.used != []
    requires SlotOf(pc) == Some(s.p.used[0]) && Bracketed(pc) == Bracketed(s.pcs[t])
    requires s' == s.(pcs := s.pcs[t := pc], popped := s.popped + 1,
                      p := s.p.(used := s.p.used[1..], numFree := s.p.numFree + 1),
                      owner := Own(s, s.p.used[0], Sender(t)).owner)
    requires DraftOk(pc, s.p.sbufs) && (t in s.sendq ==> MayQueue(pc))
    ensures Inv(s')
  {
    hide AvailOk, UsedOk, BufsOk, LogOk, SendersOk;
    CountsMove(s, s', t, pc);
    UsedPop(s.owner, s.p.used, s.popped, Sender(t));
    AvailKeep(s.owner, s.p.avail, |s.received|, s.p.used[0], Sender(t));
    BufsKeep(s.owner, s.p.sbufs, s.sent, s.p.used[0], Sender(t));
    SendersTake(s.owner, s.pcs, t, pc, s.p.used[0]);
    WakeMove(s, s', t, pc);
  }

  lemma TakeInto(s: State, t: nat, pc: Pc)
    requires Inv(s) && t < |s.pcs| && !Holding(s.pcs[t])
    requires SlotOf(pc) == Take(s, t).1 && Bracketed(pc) == Bracketed(s.pcs[t])
    requires DraftOk(pc, s.p.sbufs) && (t in s.sendq ==> MayQueue(pc))
    ensures Inv(Goto(Take(s, t).0, t, pc))
  {
    hide Frame, Encode;
    hide SendersOk, AvailOk, DevOk, LogOk, DraftsOk, QueueOk;
    var s' := Goto(Take(s, t).0, t, pc);
    if s.p.lastSbuf < |s.p.sbufs| {
      TakeNew(s, s', t, pc);
    } else if s.p.used != [] {
      TakeUsed(s, s', t, pc);
    } else {
      Move(s, s', t, pc);
    }
  }

  lemma TakeStep(s: State, a: Action)
    requires Inv(s) && (a.Grab? || a.FastTry? || a.Try?)
    ensures Inv(Step(s, a))
  {
    hide Frame, Encode;
    hide SendersOk, AvailOk, DevOk, UsedOk, BufsOk, LogOk, FreshOk;
    if Step(s, a) != s {
      TakeInto(s, a.t, Step(s, a).pcs[a.t]);
    }
  }

  // ----- writing into a held buffer -----

  /** Only the sender that holds a slot writes it, so no buffer in the ring changes. */
  lemma BufsWrite(owner: seq<Owner>, sbufs: seq<seq<byte>>, sent: seq<Sent>, i: nat, b: seq<byte>)
    requires BufsOk(owner, sbufs, sent) && i < |owner| && !InRing(owner[i]) && |b| == BUF_SIZE
    ensures BufsOk(owner, sbufs[i := b], sent)
  {
  }

  lemma DraftsWrite(owner: seq<Owner>, pcs: seq<Pc>, sbufs: seq<seq<byte>>, t: nat, pc: Pc, b: seq<byte>)
    requires SendersOk(owner, pcs) && DraftsOk(pcs, sbufs) && t < |pcs| && Holding(pcs[t])
    requires SlotOf(pcs[t]).value < |sbufs| && DraftOk(pc, sbufs[SlotOf(pcs[t]).value := b])
    ensures DraftsOk(pcs[t := pc], sbufs[SlotOf(pcs[t]).value := b])
  {
  }

  lemma Write(s: State, s': State, t: nat, pc: Pc, b: seq<byte>)
    requires Inv(s) && t < |s.pcs| && (s.pcs[t].Hold? || s.pcs[t].HdrDone?) && s.pcs[t].slot < |s.p.sbufs|
    requires |b| == BUF_SIZE && (pc.HdrDone? || pc.Filled?) && pc.slot == s.pcs[t].slot
    requires s' == s.(pcs := s.pcs[t := pc], p := s.p.(sbufs := s.p.sbufs[pc.slot := b]))
    requires DraftOk(pc, s'.p.sbufs)
    ensures Inv(s')
  {
    hide Frame, Encode;
    assert s.owner[pc.slot] == Sender(t);
    hide AvailOk, UsedOk, BufsOk, LogOk, SendersOk, DraftsOk;
    CountsMove(s, s', t, pc);
    SendersMove(s.owner, s.pcs, t, pc);
    BufsWrite(s.owner, s.p.sbufs, s.sent, pc.slot, b);
    DraftsWrite(s.owner, s.pcs, s.p.sbufs, t, pc, b);
    WakeMove(s, s', t, pc);
  }

  lemma HeaderStep(s: State, a: Action)
    requires Inv(s) && a.PutHeader?
    ensures Inv(Step(s, a))
  {
    hide AvailOk, UsedOk, BufsOk, LogOk, SendersOk, FreshOk, DevOk, QueueOk, WakeOk;
    var s' := Step(s, a);
    if s' != s {
      var old', pc := s.p.sbufs[s.pcs[a.t].slot], s.pcs[a.t];
      Write(s, s', a.t, HdrDone(pc.req, pc.slot), Encode(HeaderOf(pc.req)) + old'[HDR_SIZE..]);
    }
  }

  lemma PayloadStep(s: State, a: Action)
    requires Inv(s) && a.PutPayload?
    ensures Inv(Step(s, a))
  {
    hide AvailOk, UsedOk, BufsOk, LogOk, SendersOk, FreshOk, DevOk, QueueOk, WakeOk;
    var s' := Step(s, a);
    if s' != s {
      var old', pc := s.p.sbufs[s.pcs[a.t].slot], s.pcs[a.t];
      assert DraftOk(pc, s.p.sbufs);
      assert old'[..HDR_SIZE] == Encode(HeaderOf(pc.req));
      Write(s, s', a.t, Filled(pc.req, pc.slot), old'[..HDR_SIZE] + pc.req.data + old'[HDR_SIZE + |pc.req.data|..]);
    }
  }

  // ----- queueing a frame, and the device -----

  lemma AvailPush(owner: seq<Owner>, avail: seq<Token>, base: nat, tok: Token)
    requires AvailOk(owner, avail, base) && tok.slot < |owner| && !owner[tok.slot].Avail?
    ensures AvailOk(owner[tok.slot := Avail(base + |avail|)], avail + [tok], base)
  {
  }

  lemma AvailPop(owner: seq<Owner>, avail: seq<Token>, base: nat, o: Owner)
    requires AvailOk(owner, avail, base) && avail != [] && !o.Avail?
    ensures avail[0].slot < |owner| && owner[avail[0].slot] == Avail(base)
    ensures AvailOk(owner[avail[0].slot := o], avail[1..], base + 1)
  {
  }

  lemma UsedPush(owner: seq<Owner>, used: seq<nat>, popped: nat, slot: nat, k: nat)
    requires UsedOk(owner, used, popped) && slot < |owner| && !owner[slot].Used?
    ensures UsedOk(owner[slot := Used(k, popped + |used|)], used + [slot], popped)
  {
  }

  lemma SentPush(owner: seq<Owner>, sbufs: seq<seq<byte>>, sent: seq<Sent>, slot: nat, r: Req)
    requires BufsOk(owner, sbufs, sent) && slot < |owner| && Frame(r) <= sbufs[slot]
    ensures BufsOk(owner[slot := Avail(|sent|)], sbufs, sent + [Sent(slot, r)])
  {
  }

  lemma LogPush(sent: seq<Sent>, received: seq<seq<byte>>, avail: seq<Token>, slot: nat, r: Req)
    requires LogOk(sent, received, avail) && Sendable(r)
    ensures LogOk(sent + [Sent(slot, r)], received, avail + [Token(slot, |Frame(r)|)])
  {
  }

  /** What giving up a held slot leaves in place, whoever gets it. */
  lemma Release(s: State, s': State, t: nat, pc: Pc, slot: nat, o: Owner)
    requires Inv(s) && t < |s.pcs| && s.pcs[t].Filled? && slot == s.pcs[t].slot && slot < |s.owner|
    requires pc.Out? && !o.Sender? && !o.Used? && !o.Device? && !o.Fresh?
    requires s'.pcs == s.pcs[t := pc] && s'.sendq == s.sendq && s'.cap == s.cap && s'.p.cbOn == s.p.cbOn
    requires s'.p == s.p.(avail := s'.p.avail, numFree := s'.p.numFree)
    requires s'.pending == s.pending && s'.owed == s.owed
    requires s'.p.numFree >= 0 && s'.p.numFree - s'.failed == s.p.numFree - s.failed - 1
    ensures Counts(s') && WakeOk(s') && QueueOk(s'.sendq, s'.pcs) && DraftsOk(s'.pcs, s.p.sbufs)
    ensures var owner := s.owner[slot := o];
            && UsedOk(owner, s.p.used, s.popped) && SendersOk(owner, s'.pcs)
            && DevOk(owner, s.p.inDev) && FreshOk(owner, s.p.lastSbuf)
  {
    assert Holding(s.pcs[t]) && s.owner[slot] == Sender(t);
    hide AvailOk, UsedOk, BufsOk, LogOk, SendersOk, DevOk, FreshOk, Frame, Encode;
    CountsMove(s, s', t, pc);
    WakeMove(s, s', t, pc);
    UsedKeep(s.owner, s.p.used, s.popped, slot, o);
    SendersGive(s.owner, s.pcs, t, pc, o);
    DevKeep(s.owner, s.p.inDev, slot, o);
    FreshKeep(s.owner, s.p.lastSbuf, slot, o);
  }

  lemma Queued(s: State, t: nat)
    requires Inv(s) && t < |s.pcs| && s.pcs[t].Filled? && s.p.numFree > 0
    ensures Inv(DoQueue(s, t, false))
  {
    var pc, s' := s.pcs[t], DoQueue(s, t, false);
    assert Holding(pc) && DraftOk(pc, s.p.sbufs) && s.owner[pc.slot] == Sender(t);
    assert |s.sent| == |s.received| + |s.p.avail|;
    hide AvailOk, UsedOk, BufsOk, LogOk, SendersOk, DevOk, FreshOk, Counts, DraftsOk, QueueOk, WakeOk, Frame, Encode;
    Release(s, s', t, Out(0), pc.slot, Avail(|s.sent|));
    AvailPush(s.owner, s.p.avail, |s.received|, Token(pc.slot, |Frame(pc.req)|));
    SentPush(s.owner, s.p.sbufs, s.sent, pc.slot, pc.req);
    LogPush(s.sent, s.received, s.p.avail, pc.slot, pc.req);
  }

  lemma NotQueued(s: State, t: nat, ioErr: bool)
    requires Inv(s) && t < |s.pcs| && s.pcs[t].Filled? && (ioErr || s.p.numFree <= 0)
    ensures Inv(DoQueue(s, t, ioErr))
  {
    var pc, s' := s.pcs[t], DoQueue(s, t, ioErr);
    assert Holding(pc) && s.owner[pc.slot] == Sender(t);
    assert s.p.numFree >= 0;
    hide AvailOk, UsedOk, BufsOk, LogOk, SendersOk, DevOk, FreshOk, Counts, DraftsOk, QueueOk, WakeOk, Frame, Encode;
    Release(s, s', t, s'.pcs[t], pc.slot, Lost);
    AvailKeep(s.owner, s.p.avail, |s.received|, pc.slot, Lost);
    BufsKeep(s.owner, s.p.sbufs, s.sent, pc.slot, Lost);
  }

  lemma QueueStep(s: State, a: Action)
    requires Inv(s) && a.Queue?
    ensures Inv(Step(s, a))
  {
    if a.t < |s.pcs| && s.pcs[a.t].Filled? {
      if a.ioErr || s.p.numFree <= 0 {
        NotQueued(s, a.t, a.ioErr);
      } else {
        Queued(s, a.t);
      }
    }
  }

  lemma WakeSame(s: State, s': State)
    requires WakeOk(s) && s'.pcs == s.pcs && s'.sendq == s.sendq && (Covered(s) ==> Covered(s'))
    ensures WakeOk(s')
  {
    forall u | Asleep(s', u) ensures Covered(s') { assert Asleep(s, u); }
  }

  /** What the device reads is the frame the oldest unread send wrote. */
  lemma Reads(s: State)
    requires BufsOk(s.owner, s.p.sbufs, s.sent) && LogOk(s.sent, s.received, s.p.avail) && s.p.avail != []
    requires s.p.avail[0].slot < |s.owner| && s.owner[s.p.avail[0].slot] == Avail(|s.received|)
    ensures DoDevTake(s).received == s.received + [Frame(s.sent[|s.received|].req)]
    ensures LogOk(s.sent, DoDevTake(s).received, s.p.avail[1..])
  {
    var tok, k := s.p.avail[0], |s.received|;
    assert tok == Token(s.sent[k].slot, |Frame(s.sent[k].req)|);
    assert s.p.sbufs[tok.slot][..tok.len] == Frame(s.sent[k].req);
  }

  lemma DevRingCount(s: State, slot: nat)
    requires RingCount(s) && DevOk(s.owner, s.p.inDev)
    requires slot < |s.owner| && !s.owner[slot].Device?
    ensures |s.p.inDev + {slot}| == |s.p.inDev| + 1
  {
    assert slot !in s.p.inDev;
  }

  lemma DevAdd(owner: seq<Owner>, inDev: set<nat>, i: nat, k: nat)
    requires DevOk(owner, inDev) && i < |owner|
    ensures DevOk(owner[i := Device(k)], inDev + {i})
  {
  }

  lemma DevRemove(owner: seq<Owner>, inDev: set<nat>, i: nat, o: Owner)
    requires DevOk(owner, inDev) && i < |owner| && !o.Device?
    ensures DevOk(owner[i := o], inDev - {i})
  {
  }

  /** The two halves of the device taking a buffer: the rings, and everything else. */
  lemma DevTakeRings(s: State)
    requires Inv(s) && s.p.avail != []
    ensures var s' := DoDevTake(s);
            && AvailOk(s'.owner, s'.p.avail, |s'.received|) && UsedOk(s'.owner, s'.p.used, s'.popped)
            && DevOk(s'.owner, s'.p.inDev) && RingCount(s')
  {
    hide AvailOk, UsedOk, BufsOk, LogOk, SendersOk, DevOk, FreshOk, Counts, DraftsOk, QueueOk, WakeOk, Frame, Encode;
    var i, k := s.p.avail[0].slot, |s.received|;
    AvailPop(s.owner, s.p.avail, k, Device(k));
    UsedKeep(s.owner, s.p.used, s.popped, i, Device(k));
    DevRingCount(s, i);
    DevAdd(s.owner, s.p.inDev, i, k);
  }

  lemma DevTakeStep(s: State)
    requires Inv(s)
    ensures Inv(DoDevTake(s))
  {
    if s.p.avail != [] {
      var s', i, k := DoDevTake(s), s.p.avail[0].slot, |s.received|;
      assert s.owner[i] == Avail(k);
      DevTakeRings(s);
      Reads(s);
      hide AvailOk, UsedOk, BufsOk, LogOk, SendersOk, DevOk, FreshOk, Counts, DraftsOk, QueueOk, WakeOk, RingCount;
      hide Frame, Encode;
      SendersKeep(s.owner, s.pcs, i, Device(k));
      BufsKeep(s.owner, s.p.sbufs, s.sent, i, Device(k));
      FreshKeep(s.owner, s.p.lastSbuf, i, Device(k));
      CountsSame(s, s');
      WakeSame(s, s');
    }
  }

  /** The two halves of the device giving a buffer back: the rings, and everything else. */
  lemma DevDoneRings(s: State, slot: nat)
    requires Inv(s) && slot in s.p.inDev
    ensures var s' := DoDevDone(s, slot);
            && AvailOk(s'.owner, s'.p.avail, |s'.received|) && UsedOk(s'.owner, s'.p.used, s'.popped)
            && DevOk(s'.owner, s'.p.inDev) && RingCount(s')
  {
    assert slot < |s.owner| && s.owner[slot].Device?;
    hide AvailOk, UsedOk, BufsOk, LogOk, SendersOk, DevOk, FreshOk, Counts, DraftsOk, QueueOk, WakeOk, Frame, Encode;
    var k := s.owner[slot].k;
    var o := Used(k, s.popped + |s.p.used|);
    UsedPush(s.owner, s.p.used, s.popped, slot, k);
    AvailKeep(s.owner, s.p.avail, |s.received|, slot, o);
    DevRemove(s.owner, s.p.inDev, slot, o);
  }

  lemma DevDoneRest(s: State, slot: nat)
    requires Inv(s) && slot in s.p.inDev
    ensures var s' := DoDevDone(s, slot);
            && SendersOk(s'.owner, s'.pcs) && BufsOk(s'.owner, s'.p.sbufs, s'.sent) && FreshOk(s'.owner, s'.p.lastSbuf)
            && Counts(s') && WakeOk(s')
  {
    assert slot < |s.owner| && s.owner[slot].Device?;
    hide AvailOk, UsedOk, BufsOk, LogOk, SendersOk, DevOk, FreshOk, Counts, DraftsOk, QueueOk, WakeOk, RingCount;
    hide Frame, Encode;
    var s' := DoDevDone(s, slot);
    var o := Used(s.owner[slot].k, s.popped + |s.p.used|);
    SendersKeep(s.owner, s.pcs, slot, o);
    BufsKeep(s.owner, s.p.sbufs, s.sent, slot, o);
    FreshKeep(s.owner, s.p.lastSbuf, slot, o);
    CountsSame(s, s');
    WakeSame(s, s');
  }

  lemma DevDoneStep(s: State, slot: nat)
    requires Inv(s)
    ensures Inv(DoDevDone(s, slot))
  {
    if slot in s.p.inDev {
      DevDoneRings(s, slot);
      DevDoneRest(s, slot);
      hide AvailOk, UsedOk, BufsOk, LogOk, SendersOk, DevOk, FreshOk, Counts, DraftsOk, QueueOk, WakeOk, RingCount;
      hide Frame, Encode;
    }
  }

  lemma CountsSame(s: State, s': State)
    requires Counts(s) && s'.pcs == s.pcs && s'.cap == s.cap && s'.failed == s.failed
    requires s'.p == s.p.(avail := s'.p.avail, inDev := s'.p.inDev, used := s'.p.used)
    ensures Counts(s')
  {
  }

  /**
   * No sender moves. The device looks at the flag: with a sleeper waiting the flag is on, so the interrupt
   * is raised.
   */
  lemma NotifyStep(s: State, a: Action)
    requires Inv(s) && (a.DevNotify? || a.TxIrq? || a.RaiseSignal? || a.HandleSignals?)
    ensures Inv(Step(s, a))
  {
    hide Frame, Encode;
    var s' := Step(s, a);
    forall u | Asleep(s', u) ensures Covered(s') {
      assert Asleep(s, u);
      Awake(s, u);
    }
  }

  lemma StepInv(s: State, a: Action)
    requires Inv(s)
    ensures Inv(Step(s, a))
  {
    match a
    case Enter(_, _, _, _, _, _) => BracketStep(s, a);
    case Upref(_) => BracketStep(s, a);
    case Downref(_) => BracketStep(s, a);
    case JoinQueue(_) => QueueingStep(s, a);
    case Leave(_, _) => QueueingStep(s, a);
    case FinishWait(_) => QueueingStep(s, a);
    case Grab(_) => TakeStep(s, a);
    case FastTry(_) => TakeStep(s, a);
    case Try(_) => TakeStep(s, a);
    case PutHeader(_) => HeaderStep(s, a);
    case PutPayload(_) => PayloadStep(s, a);
    case Queue(_, _) => QueueStep(s, a);
    case DevTake => DevTakeStep(s);
    case DevDone(slot) => DevDoneStep(s, slot);
    case DevNotify => NotifyStep(s, a);
    case TxIrq(_) => NotifyStep(s, a);
    case RaiseSignal(_) => NotifyStep(s, a);
    case HandleSignals(_) => NotifyStep(s, a);
  }
}

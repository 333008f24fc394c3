/** What holds in every run of the transmission protocol: any interleaving of senders, device and interrupt. */
module TxTheorems {
  import opened Common
  import opened Wire
  import opened TxMachine
  import opened TxSafety

  lemma {:induction false} RunInv(s: State, acts: seq<Action>)
    requires Inv(s)
    ensures Inv(Run(s, acts))
    decreases |acts|
  {
    if acts != [] {
      StepInv(s, acts[0]);
      RunInv(Step(s, acts[0]), acts[1..]);
    }
  }

  lemma Reached(s0: State, rxRing: nat, txRing: nat, senders: nat, acts: seq<Action>)
    requires Init(s0, rxRing, txRing, senders)
    ensures Inv(Run(s0, acts))
  {
    InitInv(s0, rxRing, txRing, senders);
    RunInv(s0, acts);
  }

  // ----- waiting and waking -----

  /**
   * No lost wake-up: while a sender sleeps and a buffer has been returned, the interrupt is pending, or
   * the device is about to look at the flag and will find it set.
   */
  lemma NoLostWakeup(s0: State, rxRing: nat, txRing: nat, senders: nat, acts: seq<Action>, t: nat)
    requires Init(s0, rxRing, txRing, senders)
    ensures var s := Run(s0, acts);
            Asleep(s, t) && s.p.used != [] ==> s.pending || (s.owed && s.p.cbOn)
  {
    var s := Run(s0, acts);
    Reached(s0, rxRing, txRing, senders, acts);
    if Asleep(s, t) { Awake(s, t); }
  }

  /** The device's notification, the interrupt, and the sleeper's own next steps. */
  function WakeUp(t: nat): seq<Action> {
    [DevNotify, TxIrq(false), Leave(t, Ready), JoinQueue(t), Try(t)]
  }

  lemma Unfold5(s: State, a: Action, b: Action, c: Action, d: Action, e: Action)
    ensures Run(s, [a, b, c, d, e]) == Step(Step(Step(Step(Step(s, a), b), c), d), e)
  {
    assert Run(s, [a, b, c, d, e]) == Run(Step(s, a), [b, c, d, e]);
    assert Run(Step(s, a), [b, c, d, e]) == Run(Step(Step(s, a), b), [c, d, e]);
    var s2 := Step(Step(s, a), b);
    assert Run(s2, [c, d, e]) == Run(Step(s2, c), [d, e]);
    assert Run(Step(s2, c), [d, e]) == Run(Step(Step(s2, c), d), [e]);
    assert Run(Step(Step(s2, c), d), [e]) == Run(Step(Step(Step(s2, c), d), e), []);
  }

  /** That wake-up is effective: it gets the sleeper the buffer that was returned first. */
  lemma WakeupDelivers(s0: State, rxRing: nat, txRing: nat, senders: nat, acts: seq<Action>, t: nat)
    requires Init(s0, rxRing, txRing, senders)
    requires Asleep(Run(s0, acts), t) && Run(s0, acts).p.used != []
    ensures var s := Run(s0, acts);
            var s' := Run(s0, acts + WakeUp(t));
            s'.pcs[t] == Finish(s.pcs[t].req, Some(s.p.used[0]), false)
  {
    var s := Run(s0, acts);
    NoLostWakeup(s0, rxRing, txRing, senders, acts, t);
    Reached(s0, rxRing, txRing, senders, acts);
    assert Covered(s);
    RunAppend(s0, acts, WakeUp(t));
    WakesAndTakes(s, t);
  }

  lemma WakesAndTakes(s: State, t: nat)
    requires Asleep(s, t) && s.p.used != [] && s.p.lastSbuf == |s.p.sbufs| && (s.pending || (s.owed && s.p.cbOn))
    ensures Run(s, WakeUp(t)).pcs[t] == Finish(s.pcs[t].req, Some(s.p.used[0]), false)
  {
    Unfold5(s, DevNotify, TxIrq(false), Leave(t, Ready), JoinQueue(t), Try(t));
    var s2 := s.(pending := false, owed := false, sendq := {});
    assert Step(Step(s, DevNotify), TxIrq(false)) == s2;
    var s3 := Goto(s2, t, Join(s.pcs[t].req, false));
    assert Step(s2, Leave(t, Ready)) == s3;
    assert Step(s3, JoinQueue(t)) == DoJoin(s3, t);
  }

  /**
   * Whenever tx_lock is free, `sleepers` is the number of senders between upref and downref, and the
   * device is asked for interrupts exactly while there is one.
   */
  lemma SleeperAccounting(s0: State, rxRing: nat, txRing: nat, senders: nat, acts: seq<Action>)
    requires Init(s0, rxRing, txRing, senders)
    ensures var s := Run(s0, acts);
            s.p.sleepers == |Members(s.pcs, Bracketed)| && (s.p.cbOn <==> s.p.sleepers > 0)
  {
    Reached(s0, rxRing, txRing, senders, acts);
  }

  // ----- slots -----

  predicate Holds(s: State, t: nat, slot: nat) {
    t < |s.pcs| && SlotOf(s.pcs[t]) == Some(slot)
  }

  predicate IsAvail(s: State, slot: nat) {
    exists j: nat :: j < |s.p.avail| && s.p.avail[j].slot == slot
  }

  /** In the ring: available, with the device, or returned and not yet taken back. */
  predicate RingHas(s: State, slot: nat) {
    IsAvail(s, slot) || slot in s.p.inDev || slot in s.p.used
  }

  lemma RingOwner(s: State, slot: nat)
    requires Inv(s) && RingHas(s, slot)
    ensures slot < |s.owner|
    ensures IsAvail(s, slot) ==> s.owner[slot].Avail?
    ensures slot in s.p.inDev ==> s.owner[slot].Device?
    ensures slot in s.p.used ==> s.owner[slot].Used?
  {
    hide BufsOk, LogOk, SendersOk, DraftsOk;
    if IsAvail(s, slot) {
      var j: nat :| j < |s.p.avail| && s.p.avail[j].slot == slot;
      assert s.owner[s.p.avail[j].slot].Avail?;
    }
    if slot in s.p.used {
      var j: nat :| j < |s.p.used| && s.p.used[j] == slot;
      assert s.owner[s.p.used[j]].Used?;
    }
  }

  /** A slot is in at most one place, at most once, and no two senders ever hold the same one. */
  lemma SlotsExclusive(s0: State, rxRing: nat, txRing: nat, senders: nat, acts: seq<Action>, slot: nat)
    requires Init(s0, rxRing, txRing, senders)
    ensures var s := Run(s0, acts);
            && (s.p.lastSbuf <= slot ==> !RingHas(s, slot) && forall t: nat :: !Holds(s, t, slot))
            && (forall t: nat, u: nat :: Holds(s, t, slot) && Holds(s, u, slot) ==> t == u)
            && (forall t: nat :: Holds(s, t, slot) ==> !RingHas(s, slot))
            && !(IsAvail(s, slot) && slot in s.p.inDev)
            && !(IsAvail(s, slot) && slot in s.p.used)
            && !(slot in s.p.inDev && slot in s.p.used)
            && (forall j: nat, k: nat | j < |s.p.avail| && k < |s.p.avail| ::
                  s.p.avail[j].slot == slot == s.p.avail[k].slot ==> j == k)
            && (forall j: nat, k: nat | j < |s.p.used| && k < |s.p.used| ::
                  s.p.used[j] == slot == s.p.used[k] ==> j == k)
  {
    var s := Run(s0, acts);
    Reached(s0, rxRing, txRing, senders, acts);
    if RingHas(s, slot) { RingOwner(s, slot); }
    hide BufsOk, LogOk, DraftsOk, Run;
    forall t: nat | Holds(s, t, slot) ensures slot < |s.owner| && s.owner[slot] == Sender(t) {
      assert Holding(s.pcs[t]);
    }
  }

  /**
   * The tx slots split exactly: never issued, held by a sender, available, at the device, returned, or
   * lost to a failed add, and the failed adds are counted. Nothing else ever loses a slot; in particular
   * a send that times out or is refused keeps none.
   */
  lemma SlotsConserved(s0: State, rxRing: nat, txRing: nat, senders: nat, acts: seq<Action>)
    requires Init(s0, rxRing, txRing, senders)
    ensures var s := Run(s0, acts);
            NumSlots(rxRing) == (NumSlots(rxRing) - s.p.lastSbuf) + |Members(s.pcs, Holding)|
                              + |s.p.avail| + |s.p.inDev| + |s.p.used| + s.failed
    ensures var s := Run(s0, acts); s.p.lastSbuf <= NumSlots(rxRing)
  {
    Reached(s0, rxRing, txRing, senders, acts);
  }

  /** A sender that is about to report a timeout holds no buffer. */
  lemma TimeoutHoldsNone(s0: State, rxRing: nat, txRing: nat, senders: nat, acts: seq<Action>, t: nat)
    requires Init(s0, rxRing, txRing, senders)
    ensures var s := Run(s0, acts);
            t < senders && s.pcs[t].Down? && s.pcs[t].timeout ==> !Holding(s.pcs[t])
  {
    Reached(s0, rxRing, txRing, senders, acts);
    if t < senders { assert DraftOk(Run(s0, acts).pcs[t], Run(s0, acts).p.sbufs); }
  }

  // ----- the split is exact: the slots in no place are as many as the failed adds -----

  ghost function Elems(xs: seq<nat>): (e: set<nat>)
    ensures forall x: nat :: x in e <==> x in xs
  {
    set j: nat | j < |xs| :: xs[j]
  }

  /** Distinct members of a sequence make a set of the same size. */
  lemma {:induction false} DistinctSize(xs: seq<nat>)
    requires forall j: nat, k: nat :: j < k < |xs| ==> xs[j] != xs[k]
    ensures |Elems(xs)| == |xs|
    decreases |xs|
  {
    if xs == [] {
      assert Elems(xs) == {};
    } else {
      var last, front := xs[|xs| - 1], xs[..|xs| - 1];
      DistinctSize(front);
      assert xs == front + [last];
      hide Elems;
      assert last !in front;
      assert Elems(xs) == Elems(front) + {last};
    }
  }

  /** Slots held by the senders in `ts`. */
  ghost function HeldBy(s: State, ts: set<nat>): set<nat>
    requires forall t: nat :: t in ts ==> t < |s.pcs| && Holding(s.pcs[t])
  {
    set t: nat | t in ts :: Slot(s.pcs[t])
  }

  function Slot(pc: Pc): nat {
    if Holding(pc) then SlotOf(pc).value else 0
  }

  lemma {:induction false} HeldSize(s: State, ts: set<nat>)
    requires forall t :: t in ts ==> t < |s.pcs| && Holding(s.pcs[t])
    requires forall t, u :: t in ts && u in ts && SlotOf(s.pcs[t]) == SlotOf(s.pcs[u]) ==> t == u
    ensures |HeldBy(s, ts)| == |ts|
    decreases |ts|
  {
    if ts != {} {
      var t :| t in ts;
      HeldSize(s, ts - {t});
      assert HeldBy(s, ts) == HeldBy(s, ts - {t}) + {Slot(s.pcs[t])};
    }
  }

  ghost function Slots(n: nat): (r: set<nat>)
    ensures |r| == n && forall i: nat :: i in r <==> i < n
  {
    if n == 0 then {} else Slots(n - 1) + {n - 1}
  }

  ghost function AvailSlots(s: State): set<nat> {
    set j: nat | j < |s.p.avail| :: s.p.avail[j].slot
  }

  /** Handed out once, and now neither held nor in the ring. */
  ghost function LostSlots(s: State): set<nat> {
    Slots(s.p.lastSbuf) - HeldBy(s, Members(s.pcs, Holding)) - AvailSlots(s) - s.p.inDev - Elems(s.p.used)
  }

  lemma AvailSize(s: State)
    requires AvailOk(s.owner, s.p.avail, |s.received|)
    ensures |AvailSlots(s)| == |s.p.avail|
  {
    var xs := seq(|s.p.avail|, (j: nat) requires j < |s.p.avail| => s.p.avail[j].slot);
    forall j: nat, k: nat | j < k < |xs| ensures xs[j] != xs[k] {
      assert s.owner[s.p.avail[j].slot] != s.owner[s.p.avail[k].slot];
    }
    DistinctSize(xs);
    forall x ensures x in xs <==> x in AvailSlots(s) {
      if x in AvailSlots(s) {
        var j: nat :| j < |s.p.avail| && s.p.avail[j].slot == x;
        assert xs[j] == x;
      }
    }
    assert Elems(xs) == AvailSlots(s);
  }

  lemma UsedSize(s: State)
    requires UsedOk(s.owner, s.p.used, s.popped)
    ensures |Elems(s.p.used)| == |s.p.used|
  {
    forall j: nat, k: nat | j < k < |s.p.used| ensures s.p.used[j] != s.p.used[k] {
      assert s.owner[s.p.used[j]] != s.owner[s.p.used[k]];
    }
    DistinctSize(s.p.used);
  }

  lemma HeldSizeAll(s: State)
    requires SendersOk(s.owner, s.pcs)
    ensures |HeldBy(s, Members(s.pcs, Holding))| == |Members(s.pcs, Holding)|
  {
    forall t, u | t in Members(s.pcs, Holding) && u in Members(s.pcs, Holding) && SlotOf(s.pcs[t]) == SlotOf(s.pcs[u])
      ensures t == u
    {
      assert s.owner[SlotOf(s.pcs[t]).value] == Sender(t);
    }
    HeldSize(s, Members(s.pcs, Holding));
  }

  /** Every slot of a class carries that class in `owner`. */
  lemma Classes(s: State)
    requires Inv(s)
    ensures forall i :: i in HeldBy(s, Members(s.pcs, Holding)) ==> i < |s.owner| && s.owner[i].Sender?
    ensures forall i :: i in AvailSlots(s) ==> i < |s.owner| && s.owner[i].Avail?
    ensures forall i :: i in s.p.inDev ==> i < |s.owner| && s.owner[i].Device?
    ensures forall i :: i in s.p.used ==> i < |s.owner| && s.owner[i].Used?
    ensures forall i: nat :: s.p.lastSbuf <= i < |s.owner| ==> s.owner[i].Fresh?
  {
    hide Counts, BufsOk, LogOk, DraftsOk, QueueOk, WakeOk, RingCount;
    forall i | i in s.p.used ensures i < |s.owner| && s.owner[i].Used? {
      var j: nat :| j < |s.p.used| && s.p.used[j] == i;
      assert s.owner[s.p.used[j]].Used?;
    }
  }

  lemma DisjointSizes(a: set<nat>, b: set<nat>, c: set<nat>, d: set<nat>, all: set<nat>)
    requires a <= all && b <= all && c <= all && d <= all
    requires a !! b && a !! c && a !! d && b !! c && b !! d && c !! d
    ensures |all - a - b - c - d| == |all| - |a| - |b| - |c| - |d|
  {
    assert |all - a| == |all| - |a|;
    assert |all - a - b| == |all - a| - |b|;
    assert |all - a - b - c| == |all - a - b| - |c|;
    assert |all - a - b - c - d| == |all - a - b - c| - |d|;
  }

  lemma ClassesApart(s: State)
    requires Inv(s)
    ensures var h, a, d := HeldBy(s, Members(s.pcs, Holding)), AvailSlots(s), s.p.inDev;
            var u, all := Elems(s.p.used), Slots(s.p.lastSbuf);
            h <= all && a <= all && d <= all && u <= all && h !! a && h !! d && h !! u && a !! d && a !! u && d !! u
  {
    Classes(s);
    assert s.p.lastSbuf <= |s.owner|;
    hide Inv, HeldBy, AvailSlots, Slots, Elems;
    var h, a, d, u := HeldBy(s, Members(s.pcs, Holding)), AvailSlots(s), s.p.inDev, Elems(s.p.used);
    forall i: nat | i in h || i in a || i in d || i in u ensures i < s.p.lastSbuf {
      assert !s.owner[i].Fresh?;
    }
  }

  lemma LostCount(s: State)
    requires Inv(s)
    ensures |LostSlots(s)| == s.failed
  {
    ClassesApart(s);
    AvailSize(s);
    UsedSize(s);
    HeldSizeAll(s);
    assert s.p.lastSbuf == |Members(s.pcs, Holding)| + |s.p.avail| + |s.p.inDev| + |s.p.used| + s.failed;
    hide Inv, HeldBy, AvailSlots, Slots, Elems;
    DisjointSizes(HeldBy(s, Members(s.pcs, Holding)), AvailSlots(s), s.p.inDev, Elems(s.p.used), Slots(s.p.lastSbuf));
  }

  /** Exactly as many slots are lost as adds failed. */
  lemma LostAreFailedAdds(s0: State, rxRing: nat, txRing: nat, senders: nat, acts: seq<Action>)
    requires Init(s0, rxRing, txRing, senders)
    ensures |LostSlots(Run(s0, acts))| == Run(s0, acts).failed
  {
    Reached(s0, rxRing, txRing, senders, acts);
    LostCount(Run(s0, acts));
  }

  // ----- frames -----

  lemma NotWritten(s: State, a: Action, slot: nat)
    requires SendersOk(s.owner, s.pcs) && slot < |s.owner| == |s.p.sbufs| && InRing(s.owner[slot])
    ensures Step(s, a).p.sbufs[slot] == s.p.sbufs[slot]
  {
    hide DoEnter, DoGrab, DoFastTry, DoJoin, DoTry, DoLeave, DoDownref, DoQueue, DoDevTake, DoDevDone;
    if (a.PutHeader? || a.PutPayload?) && a.t < |s.pcs| && Holding(s.pcs[a.t]) {
      assert s.owner[SlotOf(s.pcs[a.t]).value].Sender?;
    }
  }

  /** No step of any context writes a slot while it is in the ring. */
  lemma RingSlotUntouched(s0: State, rxRing: nat, txRing: nat, senders: nat, acts: seq<Action>, a: Action, slot: nat)
    requires Init(s0, rxRing, txRing, senders)
    requires RingHas(Run(s0, acts), slot)
    ensures slot < NumSlots(rxRing)
    ensures Step(Run(s0, acts), a).p.sbufs[slot] == Run(s0, acts).p.sbufs[slot]
  {
    Reached(s0, rxRing, txRing, senders, acts);
    RingOwner(Run(s0, acts), slot);
    NotWritten(Run(s0, acts), a, slot);
  }

  /** The frames the remote has read are those of the first successful sends, in order, byte for byte. */
  lemma FramesInOrder(s0: State, rxRing: nat, txRing: nat, senders: nat, acts: seq<Action>)
    requires Init(s0, rxRing, txRing, senders)
    ensures var s := Run(s0, acts);
            && |s.sent| == |s.received| + |s.p.avail|
            && (forall k: nat :: k < |s.received| ==> s.received[k] == Frame(s.sent[k].req))
            && (forall j: nat :: j < |s.p.avail| ==> s.p.avail[j].slot == s.sent[|s.received| + j].slot)
  {
    hide Counts, FreshOk, SendersOk, AvailOk, DevOk, UsedOk, BufsOk, DraftsOk, QueueOk, WakeOk, Frame, Step;
    Reached(s0, rxRing, txRing, senders, acts);
  }

  /** A sender's step that returns success. */
  predicate Succeeds(s: State, a: Action) {
    a.Queue? && a.t < |s.pcs| && s.pcs[a.t].Filled? && Step(s, a).pcs[a.t] == Out(0)
  }

  /** The log of sends grows exactly when a sender's last step returns success, by that sender's message. */
  lemma SentMeansSuccess(s: State, a: Action)
    ensures Step(s, a).sent == if Succeeds(s, a) then s.sent + [Sent(s.pcs[a.t].slot, s.pcs[a.t].req)] else s.sent
  {
    hide DoEnter, DoGrab, DoFastTry, DoJoin, DoTry, DoLeave, DoDownref, DoDevTake, DoDevDone;
  }

  /** The k-th successful send is the last that used the slot. */
  predicate LastFor(sent: seq<Sent>, slot: nat, k: nat) {
    k < |sent| && sent[k].slot == slot && forall j: nat :: k < j < |sent| ==> sent[j].slot != slot
  }

  ghost predicate LatestOk(owner: seq<Owner>, sent: seq<Sent>) {
    forall i: nat :: i < |owner| && InRing(owner[i]) ==> LastFor(sent, i, owner[i].k)
  }

  /** How a step changes what the slots in the ring were sent for. */
  ghost predicate Follows(s: State, a: Action, s': State, i: nat)
    requires i < |s.owner| == |s'.owner|
  {
    || !InRing(s'.owner[i])
    || (InRing(s.owner[i]) && s'.owner[i].k == s.owner[i].k && (Succeeds(s, a) ==> s.pcs[a.t].slot != i))
    || (Succeeds(s, a) && i == s.pcs[a.t].slot && s'.owner[i] == Avail(|s.sent|))
  }

  lemma QueueFollows(s: State, a: Action, i: nat)
    requires SendersOk(s.owner, s.pcs) && i < |s.owner| && a.Queue?
    ensures |Step(s, a).owner| == |s.owner| && Follows(s, a, Step(s, a), i)
  {
    hide Frame, WriteHeader, WritePayload, UprefSleepers, DownrefSleepers, SendCheck, AvailOk, DevOk;
    hide DoDevTake, DoDevDone, DoJoin, DoLeave, DoDownref, DoEnter, DoGrab, DoTry, DoFastTry;
    if a.t < |s.pcs| && s.pcs[a.t].Filled? { assert s.owner[s.pcs[a.t].slot] == Sender(a.t); }
  }

  lemma OtherFollows(s: State, a: Action, i: nat)
    requires i < |s.owner| && !a.DevTake? && !a.DevDone? && !a.Queue?
    ensures |Step(s, a).owner| == |s.owner| && Follows(s, a, Step(s, a), i)
  {
    hide Frame, WriteHeader, WritePayload, UprefSleepers, DownrefSleepers, SendCheck, GetTxBuf;
    hide DoDevTake, DoDevDone, DoJoin, DoLeave, DoDownref, DoEnter, DoQueue;
  }

  lemma DeviceFollows(s: State, a: Action, i: nat)
    requires AvailOk(s.owner, s.p.avail, |s.received|) && DevOk(s.owner, s.p.inDev)
    requires i < |s.owner| && (a.DevTake? || a.DevDone?)
    ensures |Step(s, a).owner| == |s.owner| && Follows(s, a, Step(s, a), i)
  {
    if a.DevTake? && s.p.avail != [] { assert s.owner[s.p.avail[0].slot] == Avail(|s.received|); }
  }

  lemma KeepsLast(s: State, a: Action, s': State, i: nat)
    requires i < |s.owner| == |s'.owner| && Follows(s, a, s', i) && InRing(s'.owner[i])
    requires LatestOk(s.owner, s.sent) && (Succeeds(s, a) ==> a.t < |s.pcs| && s.pcs[a.t].Filled?)
    requires s'.sent == if Succeeds(s, a) then s.sent + [Sent(s.pcs[a.t].slot, s.pcs[a.t].req)] else s.sent
    ensures LastFor(s'.sent, i, s'.owner[i].k)
  {
    hide Succeeds;
    if InRing(s.owner[i]) { assert LastFor(s.sent, i, s.owner[i].k); }
  }

  lemma LatestStep(s: State, a: Action)
    requires Inv(s) && LatestOk(s.owner, s.sent)
    ensures LatestOk(Step(s, a).owner, Step(s, a).sent)
  {
    var s' := Step(s, a);
    SentMeansSuccess(s, a);
    assert Succeeds(s, a) ==> a.t < |s.pcs| && s.pcs[a.t].Filled?;
    StepInv(s, a);
    assert |s'.owner| == |s.owner|;
    hide Step, Succeeds, Follows, LastFor;
    forall i: nat | i < |s'.owner| && InRing(s'.owner[i]) ensures LastFor(s'.sent, i, s'.owner[i].k) {
      if a.DevTake? || a.DevDone? { DeviceFollows(s, a, i); }
      else if a.Queue? { QueueFollows(s, a, i); }
      else { OtherFollows(s, a, i); }
      KeepsLast(s, a, s', i);
    }
  }

  lemma {:induction false} LatestRun(s: State, acts: seq<Action>)
    requires Inv(s) && LatestOk(s.owner, s.sent)
    ensures LatestOk(Run(s, acts).owner, Run(s, acts).sent)
    decreases |acts|
  {
    hide Inv, LatestOk, Step;
    if acts != [] {
      StepInv(s, acts[0]);
      LatestStep(s, acts[0]);
      LatestRun(Step(s, acts[0]), acts[1..]);
    }
  }

  /** The buffer starts with the frame of the last successful send that used the slot. */
  predicate HoldsLast(s: State, slot: nat, k: nat) {
    slot < |s.p.sbufs| && LastFor(s.sent, slot, k) && Frame(s.sent[k].req) <= s.p.sbufs[slot]
  }

  lemma RingHoldsLast(s: State, slot: nat)
    requires Inv(s) && LatestOk(s.owner, s.sent) && RingHas(s, slot)
    ensures exists k: nat :: HoldsLast(s, slot, k)
  {
    RingOwner(s, slot);
    assert InRing(s.owner[slot]);
    assert HoldsLast(s, slot, s.owner[slot].k);
  }

  /** While in the ring, a buffer holds the frame of the last successful send that was given its slot. */
  lemma RingSlotHoldsFrame(s0: State, rxRing: nat, txRing: nat, senders: nat, acts: seq<Action>, slot: nat)
    requires Init(s0, rxRing, txRing, senders)
    requires RingHas(Run(s0, acts), slot)
    ensures exists k: nat :: HoldsLast(Run(s0, acts), slot, k)
  {
    Reached(s0, rxRing, txRing, senders, acts);
    InitInv(s0, rxRing, txRing, senders);
    LatestRun(s0, acts);
    RingHoldsLast(Run(s0, acts), slot);
  }

  /** No other step makes a send return 0. */
  lemma SuccessOnlyByQueueing(s: State, a: Action, t: nat)
    requires t < |s.pcs| && s.pcs[t] != Out(0) && Step(s, a).pcs[t] == Out(0)
    ensures Succeeds(s, a) && a.t == t
  {
    hide Take, Frame, WriteHeader, WritePayload, UprefSleepers, DownrefSleepers, AddOutbuf;
  }

  /**
   * End to end: whatever the remote read as its k-th frame, a receiver given it in one of its buffers
   * calls the endpoint bound to the destination of the k-th successful send with that send's bytes.
   */
  lemma EndToEnd(s0: State, rxRing: nat, txRing: nat, senders: nat, acts: seq<Action>,
                 k: nat, buf: seq<byte>, bound: map<nat, Binding>)
    requires Init(s0, rxRing, txRing, senders)
    requires k < |Run(s0, acts).received| && |buf| == BUF_SIZE && Run(s0, acts).received[k] <= buf
    ensures var s := Run(s0, acts);
            k < |s.sent| && Sendable(s.sent[k].req) &&
            var r, calls := s.sent[k].req, Receive(bound, buf, |s.received[k]|);
            if r.dst in bound && bound[r.dst].cb then
              |calls| == 1 && calls[0].ept == bound[r.dst].ept && calls[0].src == r.src &&
              calls[0].len == |r.data| && Payload(calls[0]) == r.data
            else
              calls == []
  {
    Reached(s0, rxRing, txRing, senders, acts);
    FramesInOrder(s0, rxRing, txRing, senders, acts);
    RoundTrip(bound, Run(s0, acts).sent[k].req, buf);
  }

  // ----- ring capacity -----

  /** No DMA or broken-queue error is reported in the run. */
  predicate NoIoErrors(acts: seq<Action>) {
    forall i :: 0 <= i < |acts| && acts[i].Queue? ==> !acts[i].ioErr
  }

  /** With a ring as large as the pool, a sender that holds a slot always finds a free descriptor. */
  lemma HolderFindsDescriptor(s: State, t: nat)
    requires Inv(s) && |s.p.sbufs| <= s.cap && t < |s.pcs| && Holding(s.pcs[t])
    ensures s.p.numFree > 0
  {
    MembersSome(s.pcs, Holding, t);
  }

  lemma {:induction false} NoneLost(s: State, acts: seq<Action>)
    requires Inv(s) && |s.p.sbufs| <= s.cap && NoIoErrors(acts)
    ensures Run(s, acts).failed == s.failed
    decreases |acts|
  {
    hide Inv;
    hide DoEnter, DoGrab, DoFastTry, DoJoin, DoTry, DoLeave, DoDownref, DoDevTake, DoDevDone;
    if acts != [] {
      StepInv(s, acts[0]);
      NoneLost(Step(s, acts[0]), acts[1..]);
      if acts[0].Queue? && acts[0].t < |s.pcs| && s.pcs[acts[0].t].Filled? {
        HolderFindsDescriptor(s, acts[0].t);
      }
    }
  }

  /** One complete send by context 0. */
  function OneSend(): seq<Action> {
    [Enter(0, 1, 2, [], 0, false), Grab(0), PutHeader(0), PutPayload(0), Queue(0, false)]
  }

  function Sends(k: nat): seq<Action> {
    if k == 0 then [] else OneSend() + Sends(k - 1)
  }

  lemma OneSendEffect(s: State)
    requires Inv(s) && |s.pcs| >= 1 && s.pcs[0].Out? && s.p.lastSbuf < |s.p.sbufs|
    ensures var s' := Run(s, OneSend());
            && s'.pcs[0].Out? && s'.p.lastSbuf == s.p.lastSbuf + 1
            && (s.p.numFree > 0 ==> s'.p.numFree == s.p.numFree - 1 && s'.failed == s.failed)
            && (s.p.numFree <= 0 ==> s'.failed == s.failed + 1)
  {
    var r, i := Req(1, 2, []), s.p.lastSbuf;
    assert |s.p.sbufs[i]| == BUF_SIZE && |s.owner| == |s.p.sbufs|;
    hide Inv;
    Unfold5(s, Enter(0, 1, 2, [], 0, false), Grab(0), PutHeader(0), PutPayload(0), Queue(0, false));
    EnterAndGrab(s, r, i);
    hide Step, Run;
    FillAndQueue(Step(Step(s, Enter(0, 1, 2, [], 0, false)), Grab(0)), r, i);
  }

  lemma EnterAndGrab(s: State, r: Req, i: nat)
    requires |s.pcs| >= 1 && s.pcs[0].Out? && s.p.lastSbuf == i < |s.p.sbufs| && r == Req(1, 2, [])
    requires |s.p.sbufs[i]| == BUF_SIZE
    ensures var s' := Step(Step(s, Enter(0, 1, 2, [], 0, false)), Grab(0));
            && |s'.pcs| >= 1 && s'.pcs[0] == Hold(r, i) && Writable(s', i, r)
            && s'.p == s.p.(lastSbuf := i + 1) && s'.failed == s.failed
  {
    var s1 := Step(s, Enter(0, 1, 2, [], 0, false));
    assert s1 == Goto(s, 0, First(r, false));
    assert Step(s1, Grab(0)) == DoGrab(s1, 0);
  }

  lemma FillAndQueue(s: State, r: Req, i: nat)
    requires |s.pcs| >= 1 && s.pcs[0] == Hold(r, i) && Writable(s, i, r)
    ensures var s' := Step(Step(Step(s, PutHeader(0)), PutPayload(0)), Queue(0, false));
            && s'.pcs[0].Out? && s'.p.lastSbuf == s.p.lastSbuf
            && (s.p.numFree > 0 ==> s'.p.numFree == s.p.numFree - 1 && s'.failed == s.failed)
            && (s.p.numFree <= 0 ==> s'.failed == s.failed + 1)
  {
    Fills(s, r, i);
    hide DoEnter, DoGrab, DoFastTry, DoJoin, DoTry, DoLeave, DoDownref, DoDevTake, DoDevDone, Frame;
    hide WriteHeader, WritePayload;
    var s2 := Step(Step(s, PutHeader(0)), PutPayload(0));
    assert Step(s2, Queue(0, false)) == DoQueue(s2, 0, false);
  }

  lemma Fills(s: State, r: Req, i: nat)
    requires |s.pcs| >= 1 && s.pcs[0] == Hold(r, i) && Writable(s, i, r)
    ensures var s' := Step(Step(s, PutHeader(0)), PutPayload(0));
            && s'.pcs[0] == Filled(r, i) && s'.failed == s.failed
            && s'.p.lastSbuf == s.p.lastSbuf && s'.p.numFree == s.p.numFree
  {
    hide DoEnter, DoGrab, DoFastTry, DoJoin, DoTry, DoLeave, DoDownref, DoQueue, DoDevTake, DoDevDone, Frame;
    hide Encode, HeaderOf;
    var s3 := Step(s, PutHeader(0));
    assert s3.pcs[0] == HdrDone(r, i) && Writable(s3, i, r);
  }

  lemma {:induction false} SendsNoErrors(k: nat)
    ensures NoIoErrors(Sends(k))
  {
    if k > 0 { SendsNoErrors(k - 1); }
  }

  /** Sending without the remote ever answering loses a slot as soon as descriptors run out first. */
  lemma {:induction false} SmallRingLoses(s: State, k: nat)
    requires Inv(s) && |s.pcs| >= 1 && s.pcs[0].Out?
    requires s.p.numFree >= 0 && k == s.p.numFree + 1 && s.p.lastSbuf + k <= |s.p.sbufs|
    ensures Run(s, Sends(k)).failed == s.failed + 1
    decreases k
  {
    hide Inv, OneSend, Run, Step;
    var s' := Run(s, OneSend());
    OneSendEffect(s);
    RunInv(s, OneSend());
    RunAppend(s, OneSend(), Sends(k - 1));
    if s.p.numFree == 0 {
      assert OneSend() + Sends(0) == OneSend();
    } else {
      SmallRingLoses(s', k - 1);
    }
  }

  /**
   * No slot is ever lost, barring reported errors, exactly when the tx ring is at least as large as the
   * pool, which is sized by the rx ring alone.
   */
  lemma RingCapacity(s0: State, rxRing: nat, txRing: nat, senders: nat)
    requires Init(s0, rxRing, txRing, senders) && senders >= 1
    ensures (forall acts :: NoIoErrors(acts) ==> Run(s0, acts).failed == 0) <==> rxRing <= txRing || 256 <= txRing
  {
    InitInv(s0, rxRing, txRing, senders);
    if NumSlots(rxRing) <= txRing {
      forall acts | NoIoErrors(acts) ensures Run(s0, acts).failed == 0 {
        NoneLost(s0, acts);
      }
    } else {
      SmallRingLoses(s0, txRing + 1);
      SendsNoErrors(txRing + 1);
      assert Run(s0, Sends(txRing + 1)).failed != 0;
    }
  }
}

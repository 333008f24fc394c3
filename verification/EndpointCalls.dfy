/**
 * Which callbacks the registry makes: exactly one for each receiver that finds a callback set, and, for a dispatch
 * that nobody disturbs, the one that the frame's destination calls for.
 */
module EndpointCalls {
  import opened Common
  import opened Wire
  import opened Endpoints
  import opened EndpointSafety

  // ----- when a call is made -----

  /** The calls one step makes: one of the endpoint a receiver has locked, when it goes on and the callback is set. */
  function CallOf(s: State, a: Action): seq<nat> {
    if a.Invoke? && a.t < |s.pcs| && s.pcs[a.t].Locked? && s.pcs[a.t].e in s.heap && s.heap[s.pcs[a.t].e].cb then
      [s.pcs[a.t].e]
    else
      []
  }

  function CallsOf(s: State, acts: seq<Action>): seq<nat>
    decreases |acts|
  {
    if acts == [] then [] else CallOf(s, acts[0]) + CallsOf(Step(s, acts[0]), acts[1..])
  }

  lemma StepCalls(s: State, a: Action)
    ensures Step(s, a).calls == s.calls + CallOf(s, a)
  {
    hide ChooseAddr;
    assert s.calls + [] == s.calls;
  }

  /** Over every run, these calls are made, in this order, and no others. */
  lemma {:induction false} CallsExact(s: State, acts: seq<Action>)
    ensures Run(s, acts).calls == s.calls + CallsOf(s, acts)
    decreases |acts|
  {
    hide Step, CallOf;
    if acts == [] {
      assert s.calls + [] == s.calls;
    } else {
      var s1 := Step(s, acts[0]);
      StepCalls(s, acts[0]);
      CallsExact(s1, acts[1..]);
      assert s.calls + CallOf(s, acts[0]) + CallsOf(s1, acts[1..]) ==
             s.calls + (CallOf(s, acts[0]) + CallsOf(s1, acts[1..]));
    }
  }

  /** Nobody else moves a receiver on. */
  lemma OthersStay(s: State, a: Action, t: nat, e: nat)
    requires t < |s.pcs| && s.pcs[t] == Locked(e) && a != Invoke(t)
    ensures var s' := Step(s, a); |s'.pcs| == |s.pcs| && s'.pcs[t] == Locked(e)
  {
    hide ChooseAddr, KrefPut;
  }

  /**
   * In every run, a receiver that has locked an endpoint goes on by calling it once if its callback is set, and
   * without calling anybody otherwise; the endpoint itself does not change.
   */
  lemma LeavingLocked(s0: State, contexts: nat, acts: seq<Action>, a: Action, t: nat, e: nat)
    requires Init(s0, contexts)
    requires t < |Run(s0, acts).pcs| && Run(s0, acts).pcs[t] == Locked(e)
    ensures var s, s' := Run(s0, acts), Step(Run(s0, acts), a);
            && e in s.heap && |s'.pcs| == |s.pcs|
            && (s'.pcs[t] != Locked(e) <==> a == Invoke(t))
            && (s'.pcs[t] != Locked(e) ==>
                  if s.heap[e].cb then s' == s.(calls := s.calls + [e], pcs := s.pcs[t := InCallback(e)])
                  else s' == s.(pcs := s.pcs[t := Unlocking(e)]))
  {
    var s := Run(s0, acts);
    Reached(s0, contexts, acts);
    AtEndpoint(s, t);
    hide Inv, Run, Init, PcOk;
    if a == Invoke(t) {
      assert Step(s, a) == DoInvoke(s, t);
    } else {
      hide Step;
      OthersStay(s, a, t, e);
    }
  }

  // ----- an undisturbed dispatch -----

  function DispatchActs(t: nat, dst: u32): seq<Action> {
    [Lookup(t, dst), LockCb(t), Invoke(t), Return(t), UnlockCb(t), Put(t)]
  }

  function At(s: State, t: nat, e: nat, x: Ept, pc: Pc, calls: seq<nat>): State
    requires t < |s.pcs|
  {
    s.(heap := s.heap[e := x], pcs := s.pcs[t := pc], calls := calls)
  }

  lemma LookupEffect(s: State, t: nat, dst: u32)
    requires t < |s.pcs| && s.pcs[t].Idle? && dst in s.idr && s.idr[dst] in s.heap
    ensures var e := s.idr[dst];
            Step(s, Lookup(t, dst)) == At(s, t, e, s.heap[e].(refs := s.heap[e].refs + 1), Found(e), s.calls)
  {
  }

  lemma LockEffect(s: State, t: nat, e: nat, x: Ept, calls: seq<nat>)
    requires t < |s.pcs| && x.lock.None?
    ensures Step(At(s, t, e, x, Found(e), calls), LockCb(t)) == At(s, t, e, x.(lock := Some(t)), Locked(e), calls)
  {
    var s1 := At(s, t, e, x, Found(e), calls);
    assert Step(s1, LockCb(t)) == DoLock(s1, t);
    hide Step;
  }

  lemma UnlockEffect(s: State, t: nat, e: nat, x: Ept, calls: seq<nat>)
    requires t < |s.pcs| && x.lock.None?
    ensures Step(At(s, t, e, x.(lock := Some(t)), Unlocking(e), calls), UnlockCb(t)) ==
            At(s, t, e, x, Released(e), calls)
  {
    var s1 := At(s, t, e, x.(lock := Some(t)), Unlocking(e), calls);
    assert Step(s1, UnlockCb(t)) == DoUnlock(s1, t);
    hide Step;
  }

  lemma InvokeEffect(s: State, t: nat, e: nat, x: Ept)
    requires t < |s.pcs|
    ensures Step(At(s, t, e, x, Locked(e), s.calls), Invoke(t)) ==
            if x.cb then At(s, t, e, x, InCallback(e), s.calls + [e]) else At(s, t, e, x, Unlocking(e), s.calls)
  {
    var s1 := At(s, t, e, x, Locked(e), s.calls);
    assert Step(s1, Invoke(t)) == DoInvoke(s1, t);
    hide Step;
  }

  lemma ReturnEffect(s: State, t: nat, e: nat, x: Ept, calls: seq<nat>)
    requires t < |s.pcs|
    ensures Step(At(s, t, e, x, InCallback(e), calls), Return(t)) == At(s, t, e, x, Unlocking(e), calls)
    ensures Step(At(s, t, e, x, Unlocking(e), calls), Return(t)) == At(s, t, e, x, Unlocking(e), calls)
  {
  }

  lemma PutBack(s: State, t: nat, e: nat, c: seq<nat>)
    requires t < |s.pcs| && s.pcs[t].Idle? && e in s.heap && s.heap[e].refs >= 1
    ensures Step(At(s, t, e, s.heap[e].(refs := s.heap[e].refs + 1), Released(e), c), Put(t)) == s.(calls := c)
  {
    assert s.heap[e := s.heap[e]] == s.heap && s.pcs[t := Idle] == s.pcs;
  }

  lemma BoundDispatch(s: State, t: nat, dst: u32)
    requires t < |s.pcs| && s.pcs[t].Idle? && dst in s.idr && s.idr[dst] in s.heap
    requires s.heap[s.idr[dst]].lock.None? && s.heap[s.idr[dst]].refs >= 1
    ensures var e := s.idr[dst];
            Run(s, DispatchActs(t, dst)) == s.(calls := s.calls + (if s.heap[e].cb then [e] else []))
  {
    hide Step, Run, At;
    var e := s.idr[dst];
    var x := s.heap[e].(refs := s.heap[e].refs + 1);
    var y, c := x.(lock := Some(t)), s.calls + (if x.cb then [e] else []);
    assert s.calls + [] == s.calls;
    LookupEffect(s, t, dst);
    LockEffect(s, t, e, x, s.calls);
    InvokeEffect(s, t, e, y);
    ReturnEffect(s, t, e, y, c);
    UnlockEffect(s, t, e, x, c);
    PutBack(s, t, e, c);
    var s1, s2 := At(s, t, e, x, Found(e), s.calls), At(s, t, e, y, Locked(e), s.calls);
    var s3 := At(s, t, e, y, if x.cb then InCallback(e) else Unlocking(e), c);
    var s4, s5, s6 := At(s, t, e, y, Unlocking(e), c), At(s, t, e, x, Released(e), c), s.(calls := c);
    assert Step(s2, Invoke(t)) == s3 && Step(s3, Return(t)) == s4;
    RunThrough(DispatchActs(t, dst), [s, s1, s2, s3, s4, s5, s6]);
  }

  lemma UnboundDispatch(s: State, t: nat, dst: u32)
    requires t < |s.pcs| && s.pcs[t].Idle? && dst !in s.idr
    ensures Run(s, DispatchActs(t, dst)) == s
  {
    forall a | a in DispatchActs(t, dst) ensures Step(s, a) == s {}
    hide Step, Run;
    RunThrough(DispatchActs(t, dst), [s, s, s, s, s, s, s]);
  }

  /**
   * After any run, a receiver that looks an address up and is not kept waiting for the callback lock calls the
   * endpoint bound to the address, once, if its callback is set, and nobody otherwise; everything else in the
   * registry is as before.
   */
  lemma DispatchIsARun(s0: State, contexts: nat, acts: seq<Action>, t: nat, dst: u32)
    requires Init(s0, contexts)
    requires t < |Run(s0, acts).pcs| && Run(s0, acts).pcs[t].Idle?
    requires var s := Run(s0, acts); dst in s.idr && s.idr[dst] in s.heap ==> s.heap[s.idr[dst]].lock.None?
    ensures var s := Run(s0, acts);
            var s' := Run(s, [Lookup(t, dst), LockCb(t), Invoke(t), Return(t), UnlockCb(t), Put(t)]);
            && (dst in s.idr ==> s.idr[dst] in s.heap)
            && s' == if dst in s.idr && s.heap[s.idr[dst]].cb then s.(calls := s.calls + [s.idr[dst]]) else s
  {
    var s := Run(s0, acts);
    Reached(s0, contexts, acts);
    if dst in s.idr {
      assert s.heap[s.idr[dst]].refs >= 1;
      BoundDispatch(s, t, dst);
      assert s.calls + [] == s.calls;
    } else {
      UnboundDispatch(s, t, dst);
    }
  }

  // ----- what a frame's dispatch does in the registry -----

  /** What the table and the endpoints make of an address. */
  function BoundOf(idr: map<nat, nat>, epts: map<nat, Ept>): map<nat, Binding> {
    map a | a in idr && idr[a] in epts :: Binding(idr[a], epts[idr[a]].cb)
  }

  /** The endpoints that callbacks were made to. */
  function EptsOf(calls: seq<Call>): (r: seq<nat>)
    ensures |r| == |calls|
  {
    seq(|calls|, i requires 0 <= i < |calls| => calls[i].ept)
  }

  lemma EptsJoin(a: seq<Call>, b: seq<Call>)
    ensures EptsOf(a + b) == EptsOf(a) + EptsOf(b)
  {
  }

  /** The calls of a frame's dispatch are those of the receiver that looks its destination up. */
  lemma FrameDispatch(s0: State, contexts: nat, acts: seq<Action>, t: nat, buf: seq<byte>)
    requires Init(s0, contexts) && |buf| == BUF_SIZE
    requires t < |Run(s0, acts).pcs| && Run(s0, acts).pcs[t].Idle?
    requires forall e :: e in Run(s0, acts).heap ==> Run(s0, acts).heap[e].lock.None?
    ensures var s := Run(s0, acts);
            Run(s, DispatchActs(t, U32At(buf, 4))) ==
            s.(calls := s.calls + EptsOf(Dispatch(BoundOf(s.idr, s.heap), buf)))
  {
    var s := Run(s0, acts);
    hide Init, Run;
    DispatchIsARun(s0, contexts, acts, t, U32At(buf, 4));
    HeaderAt(buf);
    assert s.calls + [] == s.calls;
  }
}

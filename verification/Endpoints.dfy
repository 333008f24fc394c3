/**
 * The endpoint registry: an id table from address to endpoint, a reference count per endpoint, and
 * receivers that dispatch to an endpoint while another context destroys it. Regions under
 * `endpoints_lock` are one step; `cb_lock` is held across the steps of a callback.
 */
module Endpoints {
  import opened Common

  const RESERVED_ADDRESSES := 1024

  /** An endpoint object; `lock` is the context holding `cb_lock`. */
  datatype Ept = Ept(addr: nat, cb: bool, refs: int, lock: Option<nat>)

  // ----- the id allocator's contract -----

  /** A 32-bit value stored in an `int`. */
  function ToInt(x: u32): int {
    if x > INT_MAX then x - 0x1_0000_0000 else x
  }

  /** Lowest free id in [start, end), or up to INT_MAX when `end` is not positive. */
  function IdrAlloc(idr: map<nat, nat>, start: int, end: int): Option<nat> {
    if start < 0 then None
    else LowestFree(idr.Keys, start, if end > 0 then end - 1 else INT_MAX)
  }

  /** The address `__rpmsg_create_ept` binds, if it can bind one. */
  function ChooseAddr(idr: map<nat, nat>, addr: u32): Option<nat> {
    if addr == ADDR_ANY then IdrAlloc(idr, RESERVED_ADDRESSES, 0)
    else IdrAlloc(idr, ToInt(addr), ToInt((addr + 1) % 0x1_0000_0000))
  }

  /**
   * A requested address is used as it is or not at all, only addresses below 2^31 can be bound, and a
   * dynamic address is the lowest free one from 1024 up.
   */
  lemma AddressChosen(idr: map<nat, nat>, addr: u32)
    ensures var r := ChooseAddr(idr, addr);
            if addr == ADDR_ANY then
              if r.Some? then
                1024 <= r.value <= INT_MAX && r.value !in idr && forall i: nat :: 1024 <= i < r.value ==> i in idr
              else
                forall i: nat :: 1024 <= i <= INT_MAX ==> i in idr
            else
              r == if addr <= INT_MAX && addr !in idr then Some(addr) else None
  {
  }

  // ----- the protocol -----

  datatype Pc =
    | Idle
    | Found(e: nat)      // receiver: looked up, reference taken
    | Locked(e: nat)     // holds cb_lock
    | InCallback(e: nat)
    | Unlocking(e: nat)
    | Released(e: nat)   // reference not yet dropped
    | Removed(e: nat)    // destroyer: no longer in the table
    | Cleared(e: nat)    // callback cleared

  predicate HoldsRef(pc: Pc, e: nat) {
    (pc.Found? || pc.Locked? || pc.InCallback? || pc.Unlocking? || pc.Released?) && pc.e == e
  }

  function RefTo(e: nat): Pc -> bool {
    pc => HoldsRef(pc, e)
  }

  /**
   * `heap` maps the endpoints that are allocated; an object identity is never given out twice.
   * `doomed` (with the context doing it), `cleared` and `returned` record how far the destruction of an
   * endpoint got, `calls` and `frees` are logs, and `fault` is set by any access to an endpoint that is not allocated.
   */
  datatype State = State(
    idr: map<nat, nat>,
    heap: map<nat, Ept>,
    next: nat,
    pcs: seq<Pc>,
    doomed: map<nat, nat>,
    cleared: set<nat>,
    returned: set<nat>,
    calls: seq<nat>,
    frees: seq<nat>,
    fault: bool)

  datatype Action =
    | Create(addr: u32, cb: bool, noMem: bool)
    | Lookup(t: nat, dst: u32)
    | LockCb(t: nat)
    | Invoke(t: nat)
    | Return(t: nat)
    | UnlockCb(t: nat)
    | Put(t: nat)
    | Remove(t: nat, e: nat)
    | Clear(t: nat)
    | DropRef(t: nat)

  predicate Init(s: State, contexts: nat) {
    && s.idr == map[] && s.heap == map[] && s.next == 0
    && |s.pcs| == contexts && (forall t :: 0 <= t < contexts ==> s.pcs[t].Idle?)
    && s.doomed == map[] && s.cleared == {} && s.returned == {} && s.calls == [] && s.frees == [] && !s.fault
  }

  function Goto(s: State, t: nat, pc: Pc): State
    requires t < |s.pcs|
  {
    s.(pcs := s.pcs[t := pc])
  }

  /** `__rpmsg_create_ept`: NULL when memory or ids run out. */
  function DoCreate(s: State, addr: u32, cb: bool, noMem: bool): (State, Option<nat>) {
    var id := ChooseAddr(s.idr, addr);
    if noMem || id.None? then (s, None)
    else (s.(idr := s.idr[id.value := s.next], heap := s.heap[s.next := Ept(id.value, cb, 1, None)],
             next := s.next + 1),
          Some(s.next))
  }

  /** Drop one reference; the last one frees the endpoint. */
  function KrefPut(s: State, e: nat): (s': State)
    ensures s' == s.(heap := s'.heap, frees := s'.frees, fault := s'.fault)
  {
    if e !in s.heap then s.(fault := true)
    else if s.heap[e].refs - 1 == 0 then s.(heap := s.heap - {e}, frees := s.frees + [e])
    else s.(heap := s.heap[e := s.heap[e].(refs := s.heap[e].refs - 1)])
  }

  function DoLookup(s: State, t: nat, dst: u32): State
    requires t < |s.pcs|
  {
    if dst !in s.idr then s
    else
      var e := s.idr[dst];
      if e !in s.heap then s.(fault := true)
      else Goto(s.(heap := s.heap[e := s.heap[e].(refs := s.heap[e].refs + 1)]), t, Found(e))
  }

  function DoLock(s: State, t: nat): State
    requires t < |s.pcs| && s.pcs[t].Found?
  {
    var e := s.pcs[t].e;
    if e !in s.heap then s.(fault := true)
    else if s.heap[e].lock.Some? then s // someone else holds it
    else Goto(s.(heap := s.heap[e := s.heap[e].(lock := Some(t))]), t, Locked(e))
  }

  function DoInvoke(s: State, t: nat): State
    requires t < |s.pcs| && s.pcs[t].Locked?
  {
    var e := s.pcs[t].e;
    if e !in s.heap then s.(fault := true)
    else if s.heap[e].cb then Goto(s.(calls := s.calls + [e]), t, InCallback(e))
    else Goto(s, t, Unlocking(e))
  }

  function DoReturn(s: State, t: nat): State
    requires t < |s.pcs| && s.pcs[t].InCallback?
  {
    Goto(s, t, Unlocking(s.pcs[t].e))
  }

  function DoUnlock(s: State, t: nat): State
    requires t < |s.pcs| && s.pcs[t].Unlocking?
  {
    var e := s.pcs[t].e;
    if e !in s.heap then s.(fault := true)
    else Goto(s.(heap := s.heap[e := s.heap[e].(lock := None)]), t, Released(e))
  }

  /** The endpoint's address leaves the table. Each endpoint is destroyed once. */
  function DoRemove(s: State, t: nat, e: nat): State
    requires t < |s.pcs|
  {
    if e >= s.next || e in s.doomed then s
    else if e !in s.heap then s.(fault := true)
    else Goto(s.(idr := s.idr - {s.heap[e].addr}, doomed := s.doomed[e := t]), t, Removed(e))
  }

  function DoClear(s: State, t: nat): State
    requires t < |s.pcs| && s.pcs[t].Removed?
  {
    var e := s.pcs[t].e;
    if e !in s.heap then s.(fault := true)
    else if s.heap[e].lock.Some? then s
    else Goto(s.(heap := s.heap[e := s.heap[e].(cb := false)], cleared := s.cleared + {e}), t, Cleared(e))
  }

  function DoPut(s: State, t: nat): State
    requires t < |s.pcs| && s.pcs[t].Released?
  {
    Goto(KrefPut(s, s.pcs[t].e), t, Idle)
  }

  function DoDropRef(s: State, t: nat): State
    requires t < |s.pcs| && s.pcs[t].Cleared?
  {
    Goto(KrefPut(s, s.pcs[t].e).(returned := s.returned + {s.pcs[t].e}), t, Idle)
  }

  function Step(s: State, a: Action): State {
    match a
    case Create(addr, cb, noMem) => DoCreate(s, addr, cb, noMem).0
    case Lookup(t, dst) => if t < |s.pcs| && s.pcs[t].Idle? then DoLookup(s, t, dst) else s
    case LockCb(t) => if t < |s.pcs| && s.pcs[t].Found? then DoLock(s, t) else s
    case Invoke(t) => if t < |s.pcs| && s.pcs[t].Locked? then DoInvoke(s, t) else s
    case Return(t) => if t < |s.pcs| && s.pcs[t].InCallback? then DoReturn(s, t) else s
    case UnlockCb(t) => if t < |s.pcs| && s.pcs[t].Unlocking? then DoUnlock(s, t) else s
    case Put(t) => if t < |s.pcs| && s.pcs[t].Released? then DoPut(s, t) else s
    case Remove(t, e) => if t < |s.pcs| && s.pcs[t].Idle? then DoRemove(s, t, e) else s
    case Clear(t) => if t < |s.pcs| && s.pcs[t].Removed? then DoClear(s, t) else s
    case DropRef(t) => if t < |s.pcs| && s.pcs[t].Cleared? then DoDropRef(s, t) else s
  }

  function Run(s: State, acts: seq<Action>): State
    decreases |acts|
  {
    if acts == [] then s else Run(Step(s, acts[0]), acts[1..])
  }

  /** The endpoints after destroying one nobody is in the callback of. */
  function AfterDestroy(heap: map<nat, Ept>, e: nat): map<nat, Ept>
    requires e in heap
  {
    if heap[e].refs == 1 then heap - {e} else heap[e := heap[e].(cb := false, refs := heap[e].refs - 1)]
  }

  lemma ClearsEffect(s: State, t: nat, e: nat)
    requires t < |s.pcs| && s.pcs[t].Idle? && e < s.next && e !in s.doomed && e in s.heap && s.heap[e].lock.None?
    ensures var s1, x := Step(s, Remove(t, e)), s.heap[e].(cb := false);
            && s1 == s.(idr := s.idr - {s.heap[e].addr}, doomed := s.doomed[e := t], pcs := s.pcs[t := Removed(e)])
            && Step(s1, Clear(t)) ==
               s1.(heap := s.heap[e := x], cleared := s.cleared + {e}, pcs := s.pcs[t := Cleared(e)])
  {
    hide KrefPut;
    assert s.pcs[t := Removed(e)][t := Cleared(e)] == s.pcs[t := Cleared(e)];
  }

  lemma DropEffect(s: State, t: nat, e: nat)
    requires t < |s.pcs| && s.pcs[t] == Cleared(e) && e in s.heap
    ensures var x, last := s.heap[e], s.heap[e].refs == 1;
            Step(s, DropRef(t)) ==
            s.(heap := if last then s.heap - {e} else s.heap[e := x.(refs := x.refs - 1)],
               frees := if last then s.frees + [e] else s.frees,
               returned := s.returned + {e}, pcs := s.pcs[t := Idle])
  {
  }

  /** Destroying in one piece is one way to run the destroyer's three steps, with nothing in between. */
  lemma DestroyIsARun(s: State, t: nat, e: nat)
    requires t < |s.pcs| && s.pcs[t].Idle? && e < s.next && e !in s.doomed && e in s.heap && s.heap[e].lock.None?
    ensures var s' := Run(s, [Remove(t, e), Clear(t), DropRef(t)]);
            && s'.idr == s.idr - {s.heap[e].addr} && s'.heap == AfterDestroy(s.heap, e)
            && s'.heap == (if s.heap[e].refs == 1 then s.heap - {e}
                           else s.heap[e := s.heap[e].(cb := false, refs := s.heap[e].refs - 1)])
            && s'.frees == (if s.heap[e].refs == 1 then s.frees + [e] else s.frees)
            && e in s'.returned && s'.calls == s.calls && s'.next == s.next && s'.pcs == s.pcs
  {
    hide Step, Run;
    ClearsEffect(s, t, e);
    var s1 := Step(s, Remove(t, e));
    var s2 := Step(s1, Clear(t));
    DropEffect(s2, t, e);
    RunThrough([Remove(t, e), Clear(t), DropRef(t)], [s, s1, s2, Step(s2, DropRef(t))]);
    assert s.pcs[t := Idle] == s.pcs;
  }

  /** A run from its intermediate states. */
  lemma {:induction false} RunThrough(acts: seq<Action>, states: seq<State>)
    requires |states| == |acts| + 1 && forall i: nat :: i < |acts| ==> Step(states[i], acts[i]) == states[i + 1]
    ensures Run(states[0], acts) == states[|acts|]
    decreases |acts|
  {
    hide Step;
    if acts != [] {
      forall i: nat | i < |acts[1..]| ensures Step(states[1..][i], acts[1..][i]) == states[1..][i + 1] {
        assert Step(states[i + 1], acts[i + 1]) == states[i + 2];
      }
      RunThrough(acts[1..], states[1..]);
    }
  }
}

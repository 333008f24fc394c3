/** Lifetime, quiescence and address binding of endpoints, over every run of the registry. */
module EndpointSafety {
  import opened Common
  import opened Endpoints

  // ----- the invariant -----

  /** The creator's reference, until destruction has dropped it, and one per receiver using the endpoint. */
  ghost function Expected(pcs: seq<Pc>, returned: set<nat>, e: nat): int {
    (if e in returned then 0 else 1) + |Members(pcs, RefTo(e))|
  }

  ghost predicate RefsOk(heap: map<nat, Ept>, pcs: seq<Pc>, returned: set<nat>) {
    forall e :: e in heap ==> heap[e].refs == Expected(pcs, returned, e) >= 1
  }

  /** The table and the endpoints not being destroyed name each other. */
  ghost predicate TableOk(idr: map<nat, nat>, heap: map<nat, Ept>, doomed: map<nat, nat>) {
    && (forall a :: a in idr ==> idr[a] in heap && heap[idr[a]].addr == a && idr[a] !in doomed)
    && (forall e :: e in heap && e !in doomed ==> heap[e].addr in idr && idr[heap[e].addr] == e)
  }

  ghost predicate PcOk(heap: map<nat, Ept>, doomed: map<nat, nat>, cleared: set<nat>, returned: set<nat>,
                       t: nat, pc: Pc) {
    && (!pc.Idle? ==> pc.e in heap)
    && (pc.Removed? || pc.Cleared? ==> pc.e in doomed && doomed[pc.e] == t && pc.e !in returned)
    && (pc.Cleared? ==> pc.e in cleared)
    && (pc.Locked? || pc.InCallback? || pc.Unlocking? ==> pc.e in heap && heap[pc.e].lock == Some(t))
    && (pc.InCallback? ==> pc.e !in cleared)
  }

  ghost predicate PcsOk(s: State) {
    forall t: nat :: t < |s.pcs| ==> PcOk(s.heap, s.doomed, s.cleared, s.returned, t, s.pcs[t])
  }

  ghost predicate ClearedOk(s: State) {
    && s.returned <= s.cleared <= s.doomed.Keys
    && (forall e :: e in s.cleared && e in s.heap ==> !s.heap[e].cb)
    && (forall e: nat :: e < s.next && e !in s.heap ==> e in s.returned)
  }

  /** Identities below `next` are allocated or freed, and freed once. */
  ghost predicate FreesOk(heap: map<nat, Ept>, next: nat, doomed: map<nat, nat>, frees: seq<nat>) {
    && (forall e :: e in heap ==> e < next)
    && (forall e :: e in doomed ==> e < next)
    && (forall e: nat :: e < next && e !in heap ==> e in doomed && e in frees)
    && (forall e :: e in frees ==> e < next && e !in heap)
    && (forall i: nat, j: nat :: i < j < |frees| ==> frees[i] != frees[j])
  }

  ghost predicate Inv(s: State) {
    && RefsOk(s.heap, s.pcs, s.returned)
    && TableOk(s.idr, s.heap, s.doomed)
    && PcsOk(s)
    && ClearedOk(s)
    && FreesOk(s.heap, s.next, s.doomed, s.frees)
    && !s.fault
  }

  lemma InitInv(s: State, contexts: nat)
    requires Init(s, contexts)
    ensures Inv(s)
  {
  }

  // ----- preservation -----

  lemma CreateRefs(s: State, e: nat, x: Ept)
    requires RefsOk(s.heap, s.pcs, s.returned) && PcsOk(s) && e !in s.heap && e !in s.returned && x.refs == 1
    ensures RefsOk(s.heap[e := x], s.pcs, s.returned)
  {
    forall t: nat | t < |s.pcs| ensures !RefTo(e)(s.pcs[t]) {
      assert PcOk(s.heap, s.doomed, s.cleared, s.returned, t, s.pcs[t]);
    }
    MembersNone(s.pcs, RefTo(e));
  }

  /** Changing an endpoint in the table that keeps what each context relies on. */
  lemma PcsKeep(s: State, s': State)
    requires PcsOk(s) && s'.pcs == s.pcs && s.heap.Keys <= s'.heap.Keys
    requires s'.doomed == s.doomed && s'.cleared == s.cleared && s'.returned == s.returned
    requires forall e :: e in s.heap ==> s'.heap[e].lock == s.heap[e].lock
    ensures PcsOk(s')
  {
    forall t: nat | t < |s'.pcs| ensures PcOk(s'.heap, s'.doomed, s'.cleared, s'.returned, t, s'.pcs[t]) {
      assert PcOk(s.heap, s.doomed, s.cleared, s.returned, t, s.pcs[t]);
    }
  }

  lemma TableCreate(idr: map<nat, nat>, heap: map<nat, Ept>, doomed: map<nat, nat>, e: nat, x: Ept)
    requires TableOk(idr, heap, doomed) && e !in heap && e !in doomed && x.addr !in idr
    ensures TableOk(idr[x.addr := e], heap[e := x], doomed)
  {
  }

  lemma FreesCreate(heap: map<nat, Ept>, next: nat, doomed: map<nat, nat>, frees: seq<nat>, x: Ept)
    requires FreesOk(heap, next, doomed, frees)
    ensures FreesOk(heap[next := x], next + 1, doomed, frees)
  {
  }

  lemma StepCreate(s: State, a: Action)
    requires Inv(s) && a.Create?
    ensures Inv(Step(s, a))
  {
    AddressChosen(s.idr, a.addr);
    if Step(s, a) != s {
      var id := ChooseAddr(s.idr, a.addr).value;
      var x := Ept(id, a.cb, 1, None);
      assert s.next !in s.heap && s.next !in s.doomed && s.next !in s.returned && id !in s.idr;
      hide ChooseAddr, RefsOk, PcsOk, TableOk, FreesOk;
      CreateRefs(s, s.next, x);
      TableCreate(s.idr, s.heap, s.doomed, s.next, x);
      FreesCreate(s.heap, s.next, s.doomed, s.frees, x);
      PcsKeep(s, Step(s, a));
    }
  }

  /** What one context's move, and the end of a destruction, add to the references expected of `e`. */
  ghost function Delta(s: State, returned: set<nat>, t: nat, pc: Pc, e: nat): int
    requires t < |s.pcs|
  {
    (if HoldsRef(pc, e) then 1 else 0) - (if HoldsRef(s.pcs[t], e) then 1 else 0)
    + (if e in returned then 0 else 1) - (if e in s.returned then 0 else 1)
  }

  /** The reference counts after one context moves on. */
  lemma RefsMove(s: State, heap: map<nat, Ept>, returned: set<nat>, t: nat, pc: Pc)
    requires RefsOk(s.heap, s.pcs, s.returned) && t < |s.pcs| && heap.Keys <= s.heap.Keys
    requires forall e :: e in heap ==> heap[e].refs >= 1
    requires forall e :: e in heap ==> heap[e].refs - s.heap[e].refs == Delta(s, returned, t, pc, e)
    ensures RefsOk(heap, s.pcs[t := pc], returned)
  {
    forall e | e in heap ensures heap[e].refs == Expected(s.pcs[t := pc], returned, e) {
      MembersUpdate(s.pcs, RefTo(e), t, pc);
    }
  }

  /** One context moves on; only the lock it takes or gives back changes for the others. */
  lemma PcsMove(s: State, s': State, t: nat, pc: Pc)
    requires PcsOk(s) && t < |s.pcs| && s'.pcs == s.pcs[t := pc]
    requires s.doomed.Keys <= s'.doomed.Keys && (forall e :: e in s.doomed ==> s'.doomed[e] == s.doomed[e])
    requires s.cleared <= s'.cleared && s.returned <= s'.returned
    requires forall u: nat :: u < |s.pcs| && u != t && !s.pcs[u].Idle? ==> s.pcs[u].e in s'.heap
    requires forall e :: e in s.heap && e in s'.heap && s.heap[e].lock != s'.heap[e].lock ==>
               s.heap[e].lock == None || s.heap[e].lock == Some(t)
    requires forall e :: e in s'.cleared && e !in s.cleared ==> e in s.heap && s.heap[e].lock.None?
    requires forall e :: e in s'.returned && e !in s.returned ==> e in s.doomed && s.doomed[e] == t
    requires PcOk(s'.heap, s'.doomed, s'.cleared, s'.returned, t, pc)
    ensures PcsOk(s')
  {
    forall u: nat | u < |s'.pcs| ensures PcOk(s'.heap, s'.doomed, s'.cleared, s'.returned, u, s'.pcs[u]) {
      assert PcOk(s.heap, s.doomed, s.cleared, s.returned, u, s.pcs[u]);
    }
  }

  lemma PcOf(s: State, t: nat)
    requires PcsOk(s) && t < |s.pcs|
    ensures PcOk(s.heap, s.doomed, s.cleared, s.returned, t, s.pcs[t])
  {
  }

  lemma BusyInHeap(s: State)
    requires PcsOk(s)
    ensures forall u: nat :: u < |s.pcs| && !s.pcs[u].Idle? ==> s.pcs[u].e in s.heap
  {
    forall u: nat | u < |s.pcs| && !s.pcs[u].Idle? ensures s.pcs[u].e in s.heap { PcOf(s, u); }
  }

  lemma RefsPositive(s: State)
    requires RefsOk(s.heap, s.pcs, s.returned)
    ensures forall d :: d in s.heap ==> s.heap[d].refs >= 1
  {
  }

  lemma TableUpdate(idr: map<nat, nat>, heap: map<nat, Ept>, doomed: map<nat, nat>, e: nat, x: Ept)
    requires TableOk(idr, heap, doomed) && e in heap && x.addr == heap[e].addr
    ensures TableOk(idr, heap[e := x], doomed)
  {
  }

  lemma TableRemove(idr: map<nat, nat>, heap: map<nat, Ept>, doomed: map<nat, nat>, e: nat, t: nat)
    requires TableOk(idr, heap, doomed) && e in heap && e !in doomed
    ensures TableOk(idr - {heap[e].addr}, heap, doomed[e := t])
  {
  }

  lemma TableFree(idr: map<nat, nat>, heap: map<nat, Ept>, doomed: map<nat, nat>, e: nat)
    requires TableOk(idr, heap, doomed) && e in heap && e in doomed
    ensures TableOk(idr, heap - {e}, doomed)
  {
  }

  lemma FreesDoom(heap: map<nat, Ept>, next: nat, doomed: map<nat, nat>, frees: seq<nat>, e: nat, t: nat)
    requires FreesOk(heap, next, doomed, frees) && e < next
    ensures FreesOk(heap, next, doomed[e := t], frees)
  {
  }

  lemma FreesUpdate(heap: map<nat, Ept>, next: nat, doomed: map<nat, nat>, frees: seq<nat>, e: nat, x: Ept)
    requires FreesOk(heap, next, doomed, frees) && e in heap
    ensures FreesOk(heap[e := x], next, doomed, frees)
  {
  }

  lemma FreesFree(heap: map<nat, Ept>, next: nat, doomed: map<nat, nat>, frees: seq<nat>, e: nat)
    requires FreesOk(heap, next, doomed, frees) && e in heap && e in doomed
    ensures FreesOk(heap - {e}, next, doomed, frees + [e])
  {
  }

  /** A move of context `t` that touches no endpoint but `e` and keeps it allocated. */
  ghost predicate Moves(s: State, s': State, t: nat, pc: Pc, e: nat, x: Ept) {
    && t < |s.pcs| && e in s.heap
    && s' == s.(heap := s.heap[e := x], pcs := s.pcs[t := pc], calls := s'.calls,
                cleared := s'.cleared, returned := s'.returned)
    && x.addr == s.heap[e].addr && x.refs >= 1
    && x.refs == s.heap[e].refs + Delta(s, s'.returned, t, pc, e)
    && (s.pcs[t].Idle? || s.pcs[t].e == e) && (pc.Idle? || pc.e == e)
    && (x.lock != s.heap[e].lock ==> s.heap[e].lock == None || s.heap[e].lock == Some(t))
    && (x.cb ==> s.heap[e].cb && e !in s'.cleared)
    && (s'.cleared == s.cleared || (s'.cleared == s.cleared + {e} && e in s.doomed && s.heap[e].lock.None?))
    && (s'.returned == s.returned || (s'.returned == s.returned + {e} && s.pcs[t].Cleared?))
    && PcOk(s'.heap, s'.doomed, s'.cleared, s'.returned, t, pc)
  }

  lemma MoveRefs(s: State, s': State, t: nat, pc: Pc, e: nat, x: Ept)
    requires RefsOk(s.heap, s.pcs, s.returned) && Moves(s, s', t, pc, e, x)
    ensures RefsOk(s'.heap, s'.pcs, s'.returned)
  {
    RefsPositive(s);
    hide RefsOk, PcOk;
    RefsMove(s, s'.heap, s'.returned, t, pc);
  }

  lemma MovePcs(s: State, s': State, t: nat, pc: Pc, e: nat, x: Ept)
    requires PcsOk(s) && Moves(s, s', t, pc, e, x)
    ensures PcsOk(s')
  {
    BusyInHeap(s);
    PcOf(s, t);
    hide PcsOk, Delta;
    PcsMove(s, s', t, pc);
  }

  lemma MoveCleared(s: State, s': State, t: nat, pc: Pc, e: nat, x: Ept)
    requires PcsOk(s) && ClearedOk(s) && Moves(s, s', t, pc, e, x)
    ensures ClearedOk(s')
  {
    PcOf(s, t);
    hide PcsOk, Delta;
  }

  lemma Move(s: State, s': State, t: nat, pc: Pc, e: nat, x: Ept)
    requires Inv(s) && Moves(s, s', t, pc, e, x)
    ensures Inv(s')
  {
    hide RefsOk, PcsOk, TableOk, FreesOk, ClearedOk, PcOk, Delta;
    TableUpdate(s.idr, s.heap, s.doomed, e, x);
    FreesUpdate(s.heap, s.next, s.doomed, s.frees, e, x);
    MoveRefs(s, s', t, pc, e, x);
    MovePcs(s, s', t, pc, e, x);
    MoveCleared(s, s', t, pc, e, x);
  }

  lemma LookupStep(s: State, t: nat, dst: u32)
    requires Inv(s) && t < |s.pcs| && s.pcs[t].Idle?
    ensures Inv(DoLookup(s, t, dst))
  {
    if dst in s.idr {
      var e := s.idr[dst];
      RefsPositive(s);
      assert forall d :: d in s.cleared && d in s.heap ==> !s.heap[d].cb;
      hide Inv;
      Move(s, DoLookup(s, t, dst), t, Found(e), e, s.heap[e].(refs := s.heap[e].refs + 1));
    }
  }

  /** What a receiver's or destroyer's step needs to know about the endpoint it is at. */
  lemma AtEndpoint(s: State, t: nat)
    requires Inv(s) && t < |s.pcs| && !s.pcs[t].Idle?
    ensures var e := s.pcs[t].e;
            && e in s.heap && s.heap[e].refs >= 1
            && (e in s.cleared ==> !s.heap[e].cb) && (e in s.returned ==> e in s.cleared)
            && s.heap[e := s.heap[e]] == s.heap
    ensures PcOk(s.heap, s.doomed, s.cleared, s.returned, t, s.pcs[t])
  {
    PcOf(s, t);
    RefsPositive(s);
    assert s.heap[s.pcs[t].e := s.heap[s.pcs[t].e]] == s.heap;
  }

  lemma LockStep(s: State, t: nat)
    requires Inv(s) && t < |s.pcs| && s.pcs[t].Found?
    ensures Inv(DoLock(s, t))
  {
    AtEndpoint(s, t);
    var e := s.pcs[t].e;
    hide Inv;
    if s.heap[e].lock.None? {
      Move(s, DoLock(s, t), t, Locked(e), e, s.heap[e].(lock := Some(t)));
    }
  }

  lemma InvokeStep(s: State, t: nat)
    requires Inv(s) && t < |s.pcs| && s.pcs[t].Locked?
    ensures Inv(DoInvoke(s, t))
  {
    AtEndpoint(s, t);
    var e := s.pcs[t].e;
    hide Inv;
    Move(s, DoInvoke(s, t), t, if s.heap[e].cb then InCallback(e) else Unlocking(e), e, s.heap[e]);
  }

  lemma ReturnStep(s: State, t: nat)
    requires Inv(s) && t < |s.pcs| && s.pcs[t].InCallback?
    ensures Inv(DoReturn(s, t))
  {
    AtEndpoint(s, t);
    var e := s.pcs[t].e;
    hide Inv;
    Move(s, DoReturn(s, t), t, Unlocking(e), e, s.heap[e]);
  }

  lemma UnlockStep(s: State, t: nat)
    requires Inv(s) && t < |s.pcs| && s.pcs[t].Unlocking?
    ensures Inv(DoUnlock(s, t))
  {
    AtEndpoint(s, t);
    var e := s.pcs[t].e;
    hide Inv;
    Move(s, DoUnlock(s, t), t, Released(e), e, s.heap[e].(lock := None));
  }

  lemma ClearStep(s: State, t: nat)
    requires Inv(s) && t < |s.pcs| && s.pcs[t].Removed?
    ensures Inv(DoClear(s, t))
  {
    PcOf(s, t);
    var e := s.pcs[t].e;
    if s.heap[e].lock.None? {
      assert s.heap[e].refs >= 1;
      hide Inv, PcsOk;
      Move(s, DoClear(s, t), t, Cleared(e), e, s.heap[e].(cb := false));
    }
  }

  lemma RemoveStep(s: State, t: nat, e: nat)
    requires Inv(s) && t < |s.pcs| && s.pcs[t].Idle?
    ensures Inv(DoRemove(s, t, e))
  {
    if e < s.next && e !in s.doomed {
      var s' := DoRemove(s, t, e);
      assert e in s.heap && e !in s.returned;
      BusyInHeap(s);
      RefsPositive(s);
      hide RefsOk, PcsOk, TableOk, FreesOk;
      TableRemove(s.idr, s.heap, s.doomed, e, t);
      FreesDoom(s.heap, s.next, s.doomed, s.frees, e, t);
      RefsMove(s, s.heap, s.returned, t, Removed(e));
      PcsMove(s, s', t, Removed(e));
    }
  }

  /** The last reference: no context uses the endpoint any more, so it can be freed. */
  lemma LastRef(s: State, t: nat, e: nat)
    requires Inv(s) && t < |s.pcs| && !s.pcs[t].Idle? && s.pcs[t].e == e && (s.pcs[t].Released? || s.pcs[t].Cleared?)
    ensures e in s.heap && e in s.doomed.Keys + {e}
    ensures s.heap[e].refs == 1 ==> e in s.doomed && (s.pcs[t].Released? ==> e in s.returned)
    ensures s.heap[e].refs == 1 ==> (forall u: nat :: u < |s.pcs| && u != t && !s.pcs[u].Idle? ==> s.pcs[u].e != e)
  {
    PcOf(s, t);
    if s.heap[e].refs == 1 {
      if s.pcs[t].Released? { MembersSome(s.pcs, RefTo(e), t); }
      assert e in s.returned <==> s.pcs[t].Released?;
      forall u: nat | u < |s.pcs| && u != t && !s.pcs[u].Idle? ensures s.pcs[u].e != e {
        PcOf(s, u);
        if s.pcs[u].e == e && HoldsRef(s.pcs[u], e) {
          MembersSome(s.pcs, RefTo(e), u);
          if s.pcs[t].Released? { MembersTwo(s.pcs, RefTo(e), t, u); }
        }
      }
    }
  }

  /** Context `t` drops the last reference to `e`. */
  ghost predicate Frees(s: State, s': State, t: nat, e: nat) {
    && t < |s.pcs| && (s.pcs[t].Released? || s.pcs[t].Cleared?) && s.pcs[t].e == e
    && e in s.heap && s.heap[e].refs == 1
    && s' == s.(heap := s.heap - {e}, frees := s.frees + [e], pcs := s.pcs[t := Idle], returned := s'.returned)
    && s'.returned == (if s.pcs[t].Cleared? then s.returned + {e} else s.returned)
  }

  lemma FreePcs(s: State, s': State, t: nat, e: nat)
    requires Inv(s) && Frees(s, s', t, e)
    ensures PcsOk(s')
  {
    LastRef(s, t, e);
    PcOf(s, t);
    BusyInHeap(s);
    hide RefsOk, PcsOk, TableOk, FreesOk, ClearedOk;
    PcsMove(s, s', t, Idle);
  }

  lemma FreeRefs(s: State, s': State, t: nat, e: nat)
    requires RefsOk(s.heap, s.pcs, s.returned) && Frees(s, s', t, e)
    ensures RefsOk(s'.heap, s'.pcs, s'.returned)
  {
    RefsPositive(s);
    hide RefsOk;
    RefsMove(s, s'.heap, s'.returned, t, Idle);
  }

  lemma FreeStep(s: State, s': State, t: nat, e: nat)
    requires Inv(s) && Frees(s, s', t, e)
    ensures Inv(s')
  {
    LastRef(s, t, e);
    PcOf(s, t);
    hide RefsOk, PcsOk, TableOk, FreesOk;
    TableFree(s.idr, s.heap, s.doomed, e);
    FreesFree(s.heap, s.next, s.doomed, s.frees, e);
    FreeRefs(s, s', t, e);
    FreePcs(s, s', t, e);
  }

  lemma PutStep(s: State, t: nat)
    requires Inv(s) && t < |s.pcs| && s.pcs[t].Released?
    ensures Inv(DoPut(s, t))
  {
    AtEndpoint(s, t);
    var e := s.pcs[t].e;
    hide Inv;
    if s.heap[e].refs == 1 {
      FreeStep(s, DoPut(s, t), t, e);
    } else {
      Move(s, DoPut(s, t), t, Idle, e, s.heap[e].(refs := s.heap[e].refs - 1));
    }
  }

  lemma DropStep(s: State, t: nat)
    requires Inv(s) && t < |s.pcs| && s.pcs[t].Cleared?
    ensures Inv(DoDropRef(s, t))
  {
    AtEndpoint(s, t);
    var e := s.pcs[t].e;
    hide Inv;
    if s.heap[e].refs == 1 {
      FreeStep(s, DoDropRef(s, t), t, e);
    } else {
      Move(s, DoDropRef(s, t), t, Idle, e, s.heap[e].(refs := s.heap[e].refs - 1));
    }
  }

  lemma StepInv(s: State, a: Action)
    requires Inv(s)
    ensures Inv(Step(s, a))
  {
    hide Inv, DoLookup, DoLock, DoInvoke, DoReturn, DoUnlock, DoPut, DoRemove, DoClear, DoDropRef, DoCreate;
    match a
    case Create(_, _, _) => StepCreate(s, a);
    case Lookup(t, dst) => if t < |s.pcs| && s.pcs[t].Idle? { LookupStep(s, t, dst); }
    case LockCb(t) => if t < |s.pcs| && s.pcs[t].Found? { LockStep(s, t); }
    case Invoke(t) => if t < |s.pcs| && s.pcs[t].Locked? { InvokeStep(s, t); }
    case Return(t) => if t < |s.pcs| && s.pcs[t].InCallback? { ReturnStep(s, t); }
    case UnlockCb(t) => if t < |s.pcs| && s.pcs[t].Unlocking? { UnlockStep(s, t); }
    case Put(t) => if t < |s.pcs| && s.pcs[t].Released? { PutStep(s, t); }
    case Remove(t, e) => if t < |s.pcs| && s.pcs[t].Idle? { RemoveStep(s, t, e); }
    case Clear(t) => if t < |s.pcs| && s.pcs[t].Removed? { ClearStep(s, t); }
    case DropRef(t) => if t < |s.pcs| && s.pcs[t].Cleared? { DropStep(s, t); }
  }

  // ----- theorems over runs -----

  lemma {:induction false} RunInv(s: State, acts: seq<Action>)
    requires Inv(s)
    ensures Inv(Run(s, acts))
    decreases |acts|
  {
    hide Inv, Step;
    if acts != [] {
      StepInv(s, acts[0]);
      RunInv(Step(s, acts[0]), acts[1..]);
    }
  }

  lemma {:induction false} RunAppend(s: State, a: seq<Action>, b: seq<Action>)
    ensures Run(s, a + b) == Run(Run(s, a), b)
    decreases |a|
  {
    hide Step;
    if a == [] {
      assert a + b == b;
    } else {
      assert (a + b)[1..] == a[1..] + b;
      RunAppend(Step(s, a[0]), a[1..], b);
    }
  }

  lemma RunOne(s: State, a: Action)
    ensures Run(s, [a]) == Step(s, a)
  {
    hide Step;
    assert Run(s, [a]) == Run(Step(s, a), []);
  }

  lemma Reached(s0: State, contexts: nat, acts: seq<Action>)
    requires Init(s0, contexts)
    ensures Inv(Run(s0, acts))
  {
    InitInv(s0, contexts);
    RunInv(s0, acts);
  }

  /** No step of any run touches an endpoint that is not allocated. */
  lemma NoUseAfterFree(s0: State, contexts: nat, acts: seq<Action>)
    requires Init(s0, contexts)
    ensures !Run(s0, acts).fault
  {
    Reached(s0, contexts, acts);
  }

  /**
   * The reference count of an allocated endpoint is one for the creator, until destruction has dropped
   * it, and one for each receiver between taking and dropping its own; so an endpoint in the table
   * always has one.
   */
  lemma RefcountExact(s0: State, contexts: nat, acts: seq<Action>, e: nat)
    requires Init(s0, contexts)
    ensures var s := Run(s0, acts);
            && (e in s.heap ==> s.heap[e].refs == (if e in s.returned then 0 else 1) + |Members(s.pcs, RefTo(e))|)
            && (e in s.idr.Values ==> e in s.heap && s.heap[e].refs >= 1)
  {
    Reached(s0, contexts, acts);
  }

  /**
   * An endpoint is freed at most once, and it is freed exactly when it was created and nothing refers to
   * it any more: destruction has returned and no receiver is using it.
   */
  lemma FreedOnceAndOnlyUnused(s0: State, contexts: nat, acts: seq<Action>, e: nat)
    requires Init(s0, contexts)
    ensures var s := Run(s0, acts);
            && (forall i: nat, j: nat :: i < j < |s.frees| ==> s.frees[i] != s.frees[j])
            && (e in s.frees <==> e < s.next && e in s.returned && |Members(s.pcs, RefTo(e))| == 0)
  {
    var s := Run(s0, acts);
    Reached(s0, contexts, acts);
    FreedIffUnused(s, e);
  }

  lemma FreedIffUnused(s: State, e: nat)
    requires Inv(s)
    ensures e in s.frees <==> e < s.next && e in s.returned && |Members(s.pcs, RefTo(e))| == 0
  {
    if e in s.frees {
      BusyInHeap(s);
      MembersNone(s.pcs, RefTo(e));
    }
  }

  /** One step: an endpoint whose callback was cleared is not called, and the call log only grows. */
  lemma QuietStep(s: State, a: Action, e: nat)
    requires Inv(s) && e in s.cleared
    ensures var s' := Step(s, a);
            && e in s'.cleared
            && (s'.calls == s.calls || exists d :: d != e && s'.calls == s.calls + [d])
  {
    if a.Invoke? && a.t < |s.pcs| && s.pcs[a.t].Locked? {
      AtEndpoint(s, a.t);
    }
  }

  lemma {:induction false} QuietRun(s: State, acts: seq<Action>, e: nat)
    requires Inv(s) && e in s.cleared
    ensures var s' := Run(s, acts);
            e in s'.cleared && s.calls <= s'.calls && e !in s'.calls[|s.calls|..]
    decreases |acts|
  {
    hide Inv, Step;
    if acts != [] {
      var s1 := Step(s, acts[0]);
      StepInv(s, acts[0]);
      QuietStep(s, acts[0], e);
      QuietRun(s1, acts[1..], e);
      var s' := Run(s1, acts[1..]);
      if s1.calls != s.calls {
        assert s'.calls[|s.calls|..] == [s'.calls[|s.calls|]] + s'.calls[|s1.calls|..];
      }
    }
  }

  lemma NobodyInside(s: State, e: nat)
    requires Inv(s) && e in s.cleared
    ensures forall t: nat :: t < |s.pcs| ==> s.pcs[t] != InCallback(e)
  {
    forall t: nat | t < |s.pcs| ensures s.pcs[t] != InCallback(e) { PcOf(s, t); }
  }

  /**
   * Quiescence: once destroying an endpoint has returned, no receiver is inside its callback and no
   * later step of any continuation calls it, whenever that receiver looked the endpoint up.
   */
  lemma CallbackQuiescence(s0: State, contexts: nat, before: seq<Action>, after: seq<Action>, e: nat)
    requires Init(s0, contexts)
    requires e in Run(s0, before).returned
    ensures var s, s' := Run(s0, before), Run(s0, before + after);
            && (forall t: nat :: t < |s.pcs| ==> s.pcs[t] != InCallback(e))
            && s.calls <= s'.calls && e !in s'.calls[|s.calls|..]
  {
    var s := Run(s0, before);
    Reached(s0, contexts, before);
    RunAppend(s0, before, after);
    assert e in s.cleared;
    NobodyInside(s, e);
    QuietRun(s, after, e);
  }

  /**
   * In every reachable state the table maps each address to the endpoint that carries it, and endpoints
   * whose destruction has not begun are all in the table, hence have distinct addresses.
   */
  lemma AddressBinding(s0: State, contexts: nat, acts: seq<Action>)
    requires Init(s0, contexts)
    ensures var s := Run(s0, acts);
            && (forall a :: a in s.idr ==> s.idr[a] in s.heap && s.heap[s.idr[a]].addr == a)
            && (forall e: nat :: e < s.next && e !in s.doomed ==>
                  e in s.heap && s.heap[e].addr in s.idr && s.idr[s.heap[e].addr] == e)
            && (forall d: nat, e: nat :: d < s.next && e < s.next && d !in s.doomed && e !in s.doomed && d != e ==>
                  s.heap[d].addr != s.heap[e].addr)
  {
    Reached(s0, contexts, acts);
  }

  /** What creating an endpoint binds, and exactly when it gives up, leaving everything as it was. */
  lemma CreateBinds(s: State, addr: u32, cb: bool, noMem: bool)
    requires Inv(s)
    ensures var (s', r) := DoCreate(s, addr, cb, noMem);
            if r.Some? then
              && r.value !in s.heap && r.value in s'.heap && s'.heap[r.value].addr !in s.idr
              && s'.heap == s.heap[r.value := Ept(s'.heap[r.value].addr, cb, 1, None)]
              && s' == s.(heap := s'.heap, idr := s.idr[s'.heap[r.value].addr := r.value], next := r.value + 1)
              && (if addr == ADDR_ANY then 1024 <= s'.heap[r.value].addr <= INT_MAX
                  else s'.heap[r.value].addr == addr <= INT_MAX)
            else
              s' == s
    ensures DoCreate(s, addr, cb, noMem).1.None? <==>
              noMem || (if addr == ADDR_ANY then forall i: nat :: 1024 <= i <= INT_MAX ==> i in s.idr
                        else addr > INT_MAX || addr in s.idr)
  {
    AddressChosen(s.idr, addr);
  }
}

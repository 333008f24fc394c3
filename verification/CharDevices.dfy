/**
 * Device numbers of the rpmsg character devices: three id allocators shared by control and endpoint
 * devices, whose creation may fail at any point and unwind, and whose release gives the ids back. Any
 * number of devices are created and released at the same time.
 */
module CharDevices {
  import opened Common

  const MINORMASK := 0xF_FFFF
  const DEV_MAX := MINORMASK + 1

  /** A device number: 12 bits of major above 20 bits of minor. */
  function MkDev(major: nat, minor: nat): nat {
    (major * 0x10_0000) % 0x1_0000_0000 + minor
  }

  function Minor(devt: nat): nat {
    devt % 0x10_0000
  }

  lemma MinorMkDev(major: nat, minor: nat)
    requires minor <= MINORMASK
    ensures Minor(MkDev(major, minor)) == minor
    ensures MkDev(major, minor) % 0x10_0000 == minor && MkDev(major, minor) / 0x10_0000 == major % 0x1000
  {
    assert (major * 0x10_0000) % 0x1_0000_0000 == (major % 0x1000) * 0x10_0000;
  }

  /** `ida_simple_get(ida, start, end)`: `end` 0 stands for no bound. */
  function IdaGet(s: set<nat>, start: nat, end: nat, noMem: bool): Option<nat> {
    if noMem then None else LowestFree(s, start, if end == 0 then INT_MAX else end - 1)
  }

  /** The numbers from 0 to `hi` are all in use. */
  ghost predicate AllTaken(s: set<nat>, hi: nat) {
    forall i: nat :: i <= hi ==> i in s
  }

  /** The lowest number not in use. */
  ghost predicate Lowest(s: set<nat>, n: nat) {
    n !in s && forall i: nat :: i < n ==> i in s
  }

  /** A minor, and an id, is given exactly when there is memory and one is free, and then it is the lowest free one. */
  lemma IdaGetExact(s: set<nat>, noMem: bool)
    ensures var m := IdaGet(s, 0, DEV_MAX, noMem);
            && (m.None? <==> noMem || AllTaken(s, 0xF_FFFF))
            && (m.Some? ==> Lowest(s, m.value) && m.value <= 0xF_FFFF)
    ensures var i := IdaGet(s, 0, 0, noMem);
            && (i.None? <==> noMem || AllTaken(s, 0x7FFF_FFFF))
            && (i.Some? ==> Lowest(s, i.value) && i.value <= 0x7FFF_FFFF)
  {
    hide LowestFree;
  }

  datatype Kind = Ctrl | Ept

  /** A device object, from its allocation through creation, life and release or unwinding. */
  datatype Obj =
    | Fresh(kind: Kind)
    | HasMinor(kind: Kind, devt: nat)
    | HasBoth(kind: Kind, devt: nat, id: nat)
    | Live(kind: Kind, devt: nat, id: nat)
    | Dying(kind: Kind, devt: nat, id: nat, cdev: bool) // id to be removed next; `cdev`: still registered
    | IdGone(kind: Kind, devt: nat, cdev: bool)         // minor to be removed next
    | CdevLeft(kind: Kind, devt: nat)                   // cdev to be deleted next
    | Gone

  datatype State = State(minors: set<nat>, ctrls: set<nat>, epts: set<nat>, objs: seq<Obj>)

  datatype Action =
    | New(kind: Kind)
    | GetMinor(o: nat, noMem: bool)
    | GetId(o: nat, noMem: bool)
    | AddCdev(o: nat, err: bool)
    | LastPut(o: nat)        // device_add failed, or the last reference was dropped
    | RemoveId(o: nat)
    | RemoveMinor(o: nat)
    | DelCdev(o: nat)

  function Ids(s: State, kind: Kind): set<nat> {
    if kind.Ctrl? then s.ctrls else s.epts
  }

  function WithIds(s: State, kind: Kind, ids: set<nat>): (s': State)
    ensures s'.objs == s.objs
  {
    if kind.Ctrl? then s.(ctrls := ids) else s.(epts := ids)
  }

  function Put(s: State, o: nat, x: Obj): State
    requires o < |s.objs|
  {
    s.(objs := s.objs[o := x])
  }

  function Step(s: State, major: nat, a: Action): State {
    match a
    case New(kind) => s.(objs := s.objs + [Fresh(kind)])
    case GetMinor(o, noMem) =>
      if o < |s.objs| && s.objs[o].Fresh? then
        var r := IdaGet(s.minors, 0, DEV_MAX, noMem);
        if r.None? then Put(s, o, Gone)
        else Put(s.(minors := s.minors + {r.value}), o, HasMinor(s.objs[o].kind, MkDev(major, r.value)))
      else s
    case GetId(o, noMem) =>
      if o < |s.objs| && s.objs[o].HasMinor? then
        var x := s.objs[o];
        var r := IdaGet(Ids(s, x.kind), 0, 0, noMem);
        if r.None? then Put(s, o, IdGone(x.kind, x.devt, false))
        else Put(WithIds(s, x.kind, Ids(s, x.kind) + {r.value}), o, HasBoth(x.kind, x.devt, r.value))
      else s
    case AddCdev(o, err) =>
      if o < |s.objs| && s.objs[o].HasBoth? then
        var x := s.objs[o];
        Put(s, o, if err then Dying(x.kind, x.devt, x.id, false) else Live(x.kind, x.devt, x.id))
      else s
    case LastPut(o) =>
      if o < |s.objs| && s.objs[o].Live? then
        var x := s.objs[o];
        Put(s, o, Dying(x.kind, x.devt, x.id, true))
      else s
    case RemoveId(o) =>
      if o < |s.objs| && s.objs[o].Dying? then
        var x := s.objs[o];
        Put(WithIds(s, x.kind, Ids(s, x.kind) - {x.id}), o, IdGone(x.kind, x.devt, x.cdev))
      else s
    case RemoveMinor(o) =>
      if o < |s.objs| && s.objs[o].IdGone? then
        var x := s.objs[o];
        Put(s.(minors := s.minors - {Minor(x.devt)}), o, if x.cdev then CdevLeft(x.kind, x.devt) else Gone)
      else s
    case DelCdev(o) =>
      if o < |s.objs| && s.objs[o].CdevLeft? then Put(s, o, Gone) else s
  }

  function Run(s: State, major: nat, acts: seq<Action>): State
    decreases |acts|
  {
    if acts == [] then s else Run(Step(s, major, acts[0]), major, acts[1..])
  }

  const Empty := State({}, {}, {}, [])

  // ----- who holds what -----

  function MinorOf(x: Obj): Option<nat> {
    if x.Fresh? || x.CdevLeft? || x.Gone? then None else Some(Minor(x.devt))
  }

  function IdOf(x: Obj, kind: Kind): Option<nat> {
    if (x.HasBoth? || x.Live? || x.Dying?) && x.kind == kind then Some(x.id) else None
  }

  predicate Holder(objs: seq<Obj>, f: Obj -> Option<nat>, o: nat, m: nat) {
    o < |objs| && f(objs[o]) == Some(m)
  }

  /** The numbers in `ids` are those held through `f`, each by one object. */
  ghost predicate Holds(ids: set<nat>, objs: seq<Obj>, f: Obj -> Option<nat>) {
    && (forall o: nat :: o < |objs| && f(objs[o]).Some? ==> f(objs[o]).value in ids)
    && (forall m :: m in ids ==> exists o: nat :: Holder(objs, f, o, m))
    && (forall o: nat, p: nat :: o < |objs| && p < |objs| && f(objs[o]).Some? && f(objs[o]) == f(objs[p]) ==> o == p)
  }

  function IdOfKind(kind: Kind): Obj -> Option<nat> {
    x => IdOf(x, kind)
  }

  ghost predicate Inv(s: State) {
    && Holds(s.minors, s.objs, MinorOf)
    && Holds(s.ctrls, s.objs, IdOfKind(Ctrl))
    && Holds(s.epts, s.objs, IdOfKind(Ept))
  }

  // ----- changes of one object -----

  lemma Same(ids: set<nat>, objs: seq<Obj>, f: Obj -> Option<nat>, o: nat, x: Obj)
    requires Holds(ids, objs, f) && o < |objs| && f(x) == f(objs[o])
    ensures Holds(ids, objs[o := x], f)
  {
    var objs' := objs[o := x];
    forall m | m in ids ensures exists p: nat :: Holder(objs', f, p, m) {
      var p: nat :| Holder(objs, f, p, m);
      assert Holder(objs', f, p, m);
    }
  }

  lemma Gain(ids: set<nat>, objs: seq<Obj>, f: Obj -> Option<nat>, o: nat, x: Obj, m: nat)
    requires Holds(ids, objs, f) && o < |objs| && f(objs[o]).None? && f(x) == Some(m) && m !in ids
    ensures Holds(ids + {m}, objs[o := x], f)
  {
    var objs' := objs[o := x];
    forall n | n in ids + {m} ensures exists p: nat :: Holder(objs', f, p, n) {
      if n == m {
        assert Holder(objs', f, o, n);
      } else {
        var p: nat :| Holder(objs, f, p, n);
        assert Holder(objs', f, p, n);
      }
    }
  }

  lemma Lose(ids: set<nat>, objs: seq<Obj>, f: Obj -> Option<nat>, o: nat, x: Obj, m: nat)
    requires Holds(ids, objs, f) && o < |objs| && f(objs[o]) == Some(m) && f(x).None?
    ensures Holds(ids - {m}, objs[o := x], f)
  {
    var objs' := objs[o := x];
    forall n | n in ids - {m} ensures exists p: nat :: Holder(objs', f, p, n) {
      var p: nat :| Holder(objs, f, p, n);
      assert Holder(objs', f, p, n);
    }
  }

  lemma Another(ids: set<nat>, objs: seq<Obj>, f: Obj -> Option<nat>, x: Obj)
    requires Holds(ids, objs, f) && f(x).None?
    ensures Holds(ids, objs + [x], f)
  {
    var objs' := objs + [x];
    forall m | m in ids ensures exists p: nat :: Holder(objs', f, p, m) {
      var p: nat :| Holder(objs, f, p, m);
      assert Holder(objs', f, p, m);
    }
  }

  /** The object keeps the ids of the other kind, whatever happens to its own. */
  lemma KeepIds(s: State, o: nat, x: Obj, kind: Kind)
    requires Inv(s) && o < |s.objs| && IdOf(x, kind) == IdOf(s.objs[o], kind)
    ensures Holds(Ids(s, kind), s.objs[o := x], IdOfKind(kind))
  {
    Same(Ids(s, kind), s.objs, IdOfKind(kind), o, x);
  }

  lemma StepGetMinor(s: State, major: nat, a: Action)
    requires Inv(s) && a.GetMinor?
    ensures Inv(Step(s, major, a))
  {
    var s' := Step(s, major, a);
    if s' != s {
      var o, x := a.o, s'.objs[a.o];
      hide Holds;
      KeepIds(s, o, x, Ctrl);
      KeepIds(s, o, x, Ept);
      var r := IdaGet(s.minors, 0, DEV_MAX, a.noMem);
      if r.Some? {
        MinorMkDev(major, r.value);
        Gain(s.minors, s.objs, MinorOf, o, x, r.value);
      } else {
        Same(s.minors, s.objs, MinorOf, o, x);
      }
    }
  }

  /** An object of a kind takes a free id of that kind. */
  lemma TakeId(s: State, kind: Kind, o: nat, devt: nat, id: nat)
    requires Inv(s) && o < |s.objs| && s.objs[o] == HasMinor(kind, devt) && id !in Ids(s, kind)
    ensures Inv(Put(WithIds(s, kind, Ids(s, kind) + {id}), o, HasBoth(kind, devt, id)))
  {
    hide Holds;
    var x := HasBoth(kind, devt, id);
    Same(s.minors, s.objs, MinorOf, o, x);
    KeepIds(s, o, x, if kind.Ctrl? then Ept else Ctrl);
    Gain(Ids(s, kind), s.objs, IdOfKind(kind), o, x, id);
  }

  lemma StepGetId(s: State, major: nat, a: Action)
    requires Inv(s) && a.GetId?
    ensures Inv(Step(s, major, a))
  {
    if a.o < |s.objs| && s.objs[a.o].HasMinor? {
      hide Inv;
      var kind, devt := s.objs[a.o].kind, s.objs[a.o].devt;
      var r := IdaGet(Ids(s, kind), 0, 0, a.noMem);
      assert r.Some? ==> r.value !in Ids(s, kind);
      hide IdaGet;
      GetIdStep(s, major, a);
      hide Step, WithIds, Put;
      if r.Some? {
        TakeId(s, kind, a.o, devt, r.value);
      } else {
        Stay(s, a.o, IdGone(kind, devt, false));
      }
    }
  }

  lemma GetIdStep(s: State, major: nat, a: Action)
    requires a.GetId? && a.o < |s.objs| && s.objs[a.o].HasMinor?
    ensures var x := s.objs[a.o];
            var r := IdaGet(Ids(s, x.kind), 0, 0, a.noMem);
            Step(s, major, a) ==
            if r.None? then Put(s, a.o, IdGone(x.kind, x.devt, false))
            else Put(WithIds(s, x.kind, Ids(s, x.kind) + {r.value}), a.o, HasBoth(x.kind, x.devt, r.value))
  {
    hide IdaGet, WithIds, Put;
  }

  /** An object moves on without taking or giving back a number. */
  lemma Stay(s: State, o: nat, x: Obj)
    requires Inv(s) && o < |s.objs| && MinorOf(x) == MinorOf(s.objs[o])
    requires IdOf(x, Ctrl) == IdOf(s.objs[o], Ctrl) && IdOf(x, Ept) == IdOf(s.objs[o], Ept)
    ensures Inv(Put(s, o, x))
  {
    hide Holds;
    Same(s.minors, s.objs, MinorOf, o, x);
    KeepIds(s, o, x, Ctrl);
    KeepIds(s, o, x, Ept);
  }

  lemma StepRemoveId(s: State, major: nat, a: Action)
    requires Inv(s) && a.RemoveId?
    ensures Inv(Step(s, major, a))
  {
    if a.o < |s.objs| && s.objs[a.o].Dying? {
      var o, x, y := a.o, s.objs[a.o], IdGone(s.objs[a.o].kind, s.objs[a.o].devt, s.objs[a.o].cdev);
      hide Holds;
      Same(s.minors, s.objs, MinorOf, o, y);
      KeepIds(s, o, y, if x.kind.Ctrl? then Ept else Ctrl);
      Lose(Ids(s, x.kind), s.objs, IdOfKind(x.kind), o, y, x.id);
    }
  }

  lemma StepRemoveMinor(s: State, major: nat, a: Action)
    requires Inv(s) && a.RemoveMinor?
    ensures Inv(Step(s, major, a))
  {
    if a.o < |s.objs| && s.objs[a.o].IdGone? {
      var o, x := a.o, s.objs[a.o];
      var y := if x.cdev then CdevLeft(x.kind, x.devt) else Gone;
      hide Holds;
      KeepIds(s, o, y, Ctrl);
      KeepIds(s, o, y, Ept);
      Lose(s.minors, s.objs, MinorOf, o, y, Minor(x.devt));
    }
  }

  lemma StepInv(s: State, major: nat, a: Action)
    requires Inv(s)
    ensures Inv(Step(s, major, a))
  {
    hide Holds;
    match a
    case New(kind) =>
      Another(s.minors, s.objs, MinorOf, Fresh(kind));
      Another(s.ctrls, s.objs, IdOfKind(Ctrl), Fresh(kind));
      Another(s.epts, s.objs, IdOfKind(Ept), Fresh(kind));
    case GetMinor(_, _) => StepGetMinor(s, major, a);
    case GetId(_, _) => StepGetId(s, major, a);
    case RemoveId(_) => StepRemoveId(s, major, a);
    case RemoveMinor(_) => StepRemoveMinor(s, major, a);
    case AddCdev(o, _) => if o < |s.objs| { StepStay(s, major, a); }
    case LastPut(o) => if o < |s.objs| { StepStay(s, major, a); }
    case DelCdev(o) => if o < |s.objs| { StepStay(s, major, a); }
  }

  lemma StepStay(s: State, major: nat, a: Action)
    requires Inv(s) && (a.AddCdev? || a.LastPut? || a.DelCdev?)
    ensures Inv(Step(s, major, a))
  {
    var s' := Step(s, major, a);
    if s' != s { Stay(s, a.o, s'.objs[a.o]); }
  }

  lemma {:induction false} RunInv(s: State, major: nat, acts: seq<Action>)
    requires Inv(s)
    ensures Inv(Run(s, major, acts))
    decreases |acts|
  {
    hide Inv, Step;
    if acts != [] {
      StepInv(s, major, acts[0]);
      RunInv(Step(s, major, acts[0]), major, acts[1..]);
    }
  }

  // ----- theorems -----

  /**
   * Over every interleaving of creations, failures and releases, each allocator holds exactly the numbers
   * of the objects that have one, and no two objects share a number.
   */
  lemma IdsExact(major: nat, acts: seq<Action>)
    ensures var s := Run(Empty, major, acts);
            && Holds(s.minors, s.objs, MinorOf)
            && Holds(s.ctrls, s.objs, IdOfKind(Ctrl))
            && Holds(s.epts, s.objs, IdOfKind(Ept))
  {
    RunInv(Empty, major, acts);
  }

  /** Nothing is being created or torn down. */
  predicate Settled(s: State) {
    forall o: nat :: o < |s.objs| ==> s.objs[o].Live? || s.objs[o].Gone?
  }

  /** A device in use with minor number `n`, and one of a kind with id `n`. */
  predicate LiveMinor(s: State, o: nat, n: nat) {
    o < |s.objs| && s.objs[o].Live? && Minor(s.objs[o].devt) == n
  }

  predicate LiveId(s: State, kind: Kind, o: nat, n: nat) {
    o < |s.objs| && s.objs[o].Live? && s.objs[o].kind == kind && s.objs[o].id == n
  }

  lemma LiveMinors(s: State, n: nat)
    requires Inv(s) && Settled(s)
    ensures n in s.minors <==> exists o: nat :: LiveMinor(s, o, n)
  {
    if n in s.minors {
      var o: nat :| Holder(s.objs, MinorOf, o, n);
      assert LiveMinor(s, o, n);
    }
  }

  lemma LiveIds(s: State, kind: Kind, n: nat)
    requires Inv(s) && Settled(s)
    ensures n in Ids(s, kind) <==> exists o: nat :: LiveId(s, kind, o, n)
  {
    if n in Ids(s, kind) {
      var o: nat :| Holder(s.objs, IdOfKind(kind), o, n);
      assert LiveId(s, kind, o, n);
    }
  }

  /** Once creations and releases are over, exactly the live devices hold numbers: nothing leaks. */
  lemma SettledHoldsLive(major: nat, acts: seq<Action>, n: nat)
    requires Settled(Run(Empty, major, acts))
    ensures var s := Run(Empty, major, acts);
            && (n in s.minors <==> exists o: nat :: LiveMinor(s, o, n))
            && (n in s.ctrls <==> exists o: nat :: LiveId(s, Ctrl, o, n))
            && (n in s.epts <==> exists o: nat :: LiveId(s, Ept, o, n))
  {
    var s := Run(Empty, major, acts);
    IdsExact(major, acts);
    LiveMinors(s, n);
    LiveIds(s, Ctrl, n);
    LiveIds(s, Ept, n);
  }

  // ----- one creation -----

  /**
   * Which stage of a creation fails: the minor and the id for want of memory, the later calls with an error. Memory
   * for the object itself is had or not together with memory for the minor.
   */
  datatype Faults = Faults(minor: bool, id: bool, cdev: int, add: int)

  function IdaError(noMem: bool): int {
    if noMem then ENOMEM else ENOSPC
  }

  /** The error of the first stage that fails, or 0. */
  function CreateError(minors: set<nat>, ids: set<nat>, f: Faults): int {
    if IdaGet(minors, 0, DEV_MAX, f.minor).None? then IdaError(f.minor)
    else if IdaGet(ids, 0, 0, f.id).None? then IdaError(f.id)
    else if f.cdev != 0 then f.cdev
    else f.add
  }

  /**
   * The stages in order: ENOMEM without memory and ENOSPC without a free number, first for the minor and then for the
   * id, then what adding the cdev and the device return.
   */
  lemma CreateErrorExact(minors: set<nat>, ids: set<nat>, f: Faults)
    ensures CreateError(minors, ids, f) ==
            if f.minor then -12
            else if AllTaken(minors, 0xF_FFFF) then -28
            else if f.id then -12
            else if AllTaken(ids, 0x7FFF_FFFF) then -28
            else if f.cdev != 0 then f.cdev
            else f.add
  {
    IdaGetExact(minors, f.minor);
    IdaGetExact(ids, f.id);
    hide IdaGet;
  }

  /** The numbers a creation that succeeds takes. */
  function NewMinor(minors: set<nat>): nat {
    var r := LowestFree(minors, 0, MINORMASK);
    if r.Some? then r.value else 0
  }

  function NewId(ids: set<nat>): nat {
    var r := LowestFree(ids, 0, INT_MAX);
    if r.Some? then r.value else 0
  }

  function CreateActs(o: nat, kind: Kind, f: Faults): seq<Action> {
    [New(kind), GetMinor(o, f.minor), GetId(o, f.id), AddCdev(o, f.cdev != 0)] +
    (if f.add != 0 then [LastPut(o)] else []) + [RemoveId(o), RemoveMinor(o), DelCdev(o)]
  }

  /** A run from its intermediate states. */
  lemma {:induction false} RunThrough(major: nat, acts: seq<Action>, states: seq<State>)
    requires |states| == |acts| + 1 && forall i: nat :: i < |acts| ==> Step(states[i], major, acts[i]) == states[i + 1]
    ensures Run(states[0], major, acts) == states[|acts|]
    decreases |acts|
  {
    hide Step;
    if acts != [] {
      forall i: nat | i < |acts[1..]| ensures Step(states[1..][i], major, acts[1..][i]) == states[1..][i + 1] {
        assert Step(states[i + 1], major, acts[i + 1]) == states[i + 2];
      }
      RunThrough(major, acts[1..], states[1..]);
    }
  }

  /** The last object of a state is at a given point. */
  function Last(s: State, x: Obj): State {
    s.(objs := s.objs + [x])
  }

  lemma LastTwice(s: State, x: Obj, y: Obj)
    ensures Put(Last(s, x), |s.objs|, y) == Last(s, y)
  {
    assert (s.objs + [x])[|s.objs| := y] == s.objs + [y];
  }

  /** After the two allocations: the minor is taken, or given up; likewise the id. */
  lemma AllocEffect(s: State, major: nat, kind: Kind, f: Faults)
    ensures var o, m, i := |s.objs|, IdaGet(s.minors, 0, DEV_MAX, f.minor), IdaGet(Ids(s, kind), 0, 0, f.id);
            Run(s, major, [New(kind), GetMinor(o, f.minor), GetId(o, f.id)]) ==
            if m.None? then Last(s, Gone)
            else
              var s1, devt := s.(minors := s.minors + {m.value}), MkDev(major, m.value);
              if i.None? then Last(s1, IdGone(kind, devt, false))
              else Last(WithIds(s1, kind, Ids(s, kind) + {i.value}), HasBoth(kind, devt, i.value))
  {
    hide Run, LowestFree;
    var o := |s.objs|;
    var m, i := IdaGet(s.minors, 0, DEV_MAX, f.minor), IdaGet(Ids(s, kind), 0, 0, f.id);
    hide IdaGet;
    var s1 := Step(s, major, New(kind));
    assert s1 == Last(s, Fresh(kind));
    var s2 := Step(s1, major, GetMinor(o, f.minor));
    LastTwice(s, Fresh(kind), Gone);
    if m.Some? {
      var t := s.(minors := s.minors + {m.value});
      var devt := MkDev(major, m.value);
      LastTwice(t, Fresh(kind), HasMinor(kind, devt));
      assert s2 == Last(t, HasMinor(kind, devt));
      LastTwice(t, HasMinor(kind, devt), IdGone(kind, devt, false));
      if i.Some? {
        LastTwice(WithIds(t, kind, Ids(s, kind) + {i.value}), HasMinor(kind, devt), HasBoth(kind, devt, i.value));
      }
    }
    var s3 := Step(s2, major, GetId(o, f.id));
    RunThrough(major, [New(kind), GetMinor(o, f.minor), GetId(o, f.id)], [s, s1, s2, s3]);
  }

  function Cleanup(o: nat, f: Faults): seq<Action> {
    [AddCdev(o, f.cdev != 0)] + (if f.add != 0 then [LastPut(o)] else []) + [RemoveId(o), RemoveMinor(o), DelCdev(o)]
  }

  /** An object that got nothing is left alone by what follows. */
  lemma GoneEffect(s: State, major: nat, f: Faults)
    ensures Run(Last(s, Gone), major, Cleanup(|s.objs|, f)) == Last(s, Gone)
  {
    var o, x := |s.objs|, Last(s, Gone);
    assert Step(x, major, AddCdev(o, f.cdev != 0)) == x && Step(x, major, LastPut(o)) == x;
    assert Step(x, major, RemoveId(o)) == x && Step(x, major, RemoveMinor(o)) == x && Step(x, major, DelCdev(o)) == x;
    hide Step, Run;
    RunThrough(major, Cleanup(o, f), if f.add != 0 then [x, x, x, x, x, x] else [x, x, x, x, x]);
  }

  /** One that got only a minor gives it back. */
  lemma IdGoneEffect(s: State, major: nat, kind: Kind, devt: nat, f: Faults)
    ensures Run(Last(s, IdGone(kind, devt, false)), major, Cleanup(|s.objs|, f)) ==
            Last(s.(minors := s.minors - {Minor(devt)}), Gone)
  {
    var o, x := |s.objs|, Last(s, IdGone(kind, devt, false));
    var y := Last(s.(minors := s.minors - {Minor(devt)}), Gone);
    assert Step(x, major, AddCdev(o, f.cdev != 0)) == x && Step(x, major, LastPut(o)) == x;
    assert Step(x, major, RemoveId(o)) == x && Step(y, major, DelCdev(o)) == y;
    LastTwice(s.(minors := s.minors - {Minor(devt)}), IdGone(kind, devt, false), Gone);
    assert Step(x, major, RemoveMinor(o)) == y;
    hide Step, Run;
    RunThrough(major, Cleanup(o, f), if f.add != 0 then [x, x, x, x, y, y] else [x, x, x, y, y]);
  }

  /** The release of the last object, with or without a cdev: id, minor, and then the cdev. */
  function Releases(o: nat): seq<Action> {
    [RemoveId(o), RemoveMinor(o), DelCdev(o)]
  }

  lemma ReleaseSteps(s: State, major: nat, kind: Kind, devt: nat, id: nat, cdev: bool)
    ensures var o, t := |s.objs|, WithIds(s, kind, Ids(s, kind) - {id});
            var u := t.(minors := s.minors - {Minor(devt)});
            && Step(Last(s, Dying(kind, devt, id, cdev)), major, RemoveId(o)) == Last(t, IdGone(kind, devt, cdev))
            && Step(Last(t, IdGone(kind, devt, cdev)), major, RemoveMinor(o)) ==
               Last(u, if cdev then CdevLeft(kind, devt) else Gone)
            && Step(Last(u, if cdev then CdevLeft(kind, devt) else Gone), major, DelCdev(o)) == Last(u, Gone)
  {
    var t := WithIds(s, kind, Ids(s, kind) - {id});
    var u := t.(minors := s.minors - {Minor(devt)});
    LastTwice(t, Dying(kind, devt, id, cdev), IdGone(kind, devt, cdev));
    LastTwice(u, IdGone(kind, devt, cdev), if cdev then CdevLeft(kind, devt) else Gone);
    LastTwice(u, CdevLeft(kind, devt), Gone);
  }

  lemma ReleaseEffect(s: State, major: nat, kind: Kind, devt: nat, id: nat, cdev: bool)
    ensures Run(Last(s, Dying(kind, devt, id, cdev)), major, Releases(|s.objs|)) ==
            Last(WithIds(s.(minors := s.minors - {Minor(devt)}), kind, Ids(s, kind) - {id}), Gone)
  {
    hide Step, Run;
    var t := WithIds(s, kind, Ids(s, kind) - {id});
    var u := t.(minors := s.minors - {Minor(devt)});
    ReleaseSteps(s, major, kind, devt, id, cdev);
    RunThrough(major, Releases(|s.objs|), [Last(s, Dying(kind, devt, id, cdev)), Last(t, IdGone(kind, devt, cdev)),
                                           Last(u, if cdev then CdevLeft(kind, devt) else Gone), Last(u, Gone)]);
  }

  /** Registering the cdev, and dropping the reference again when adding the device fails. */
  function Adds(o: nat, f: Faults): seq<Action> {
    [AddCdev(o, f.cdev != 0)] + (if f.add != 0 then [LastPut(o)] else [])
  }

  lemma AddsEffect(s: State, major: nat, kind: Kind, devt: nat, id: nat, f: Faults)
    ensures Run(Last(s, HasBoth(kind, devt, id)), major, Adds(|s.objs|, f)) ==
            Last(s, if f.cdev != 0 then Dying(kind, devt, id, false)
                    else if f.add != 0 then Dying(kind, devt, id, true) else Live(kind, devt, id))
  {
    hide Run;
    var o, x, live := |s.objs|, Last(s, HasBoth(kind, devt, id)), Last(s, Live(kind, devt, id));
    var y, z := Last(s, Dying(kind, devt, id, false)), Last(s, Dying(kind, devt, id, true));
    LastTwice(s, HasBoth(kind, devt, id), Live(kind, devt, id));
    LastTwice(s, HasBoth(kind, devt, id), Dying(kind, devt, id, false));
    LastTwice(s, Live(kind, devt, id), Dying(kind, devt, id, true));
    assert Step(x, major, AddCdev(o, f.cdev != 0)) == if f.cdev != 0 then y else live;
    assert Step(live, major, LastPut(o)) == z && Step(y, major, LastPut(o)) == y;
    hide Step;
    RunThrough(major, Adds(o, f), if f.add != 0 then [x, if f.cdev != 0 then y else live, if f.cdev != 0 then y else z]
                                  else [x, if f.cdev != 0 then y else live]);
  }

  lemma LiveEffect(s: State, major: nat, kind: Kind, devt: nat, id: nat)
    ensures Run(Last(s, Live(kind, devt, id)), major, Releases(|s.objs|)) == Last(s, Live(kind, devt, id))
  {
    var o, x := |s.objs|, Last(s, Live(kind, devt, id));
    assert Step(x, major, RemoveId(o)) == x && Step(x, major, RemoveMinor(o)) == x && Step(x, major, DelCdev(o)) == x;
    hide Step, Run;
    RunThrough(major, Releases(o), [x, x, x, x]);
  }

  /** One that got both lives on, or gives both back. */
  lemma BothEffect(s: State, major: nat, kind: Kind, devt: nat, id: nat, f: Faults)
    ensures Run(Last(s, HasBoth(kind, devt, id)), major, Cleanup(|s.objs|, f)) ==
            if f.cdev == 0 && f.add == 0 then Last(s, Live(kind, devt, id))
            else Last(WithIds(s.(minors := s.minors - {Minor(devt)}), kind, Ids(s, kind) - {id}), Gone)
  {
    hide Run, Step;
    assert Cleanup(|s.objs|, f) == Adds(|s.objs|, f) + Releases(|s.objs|);
    RunAppend(Last(s, HasBoth(kind, devt, id)), major, Adds(|s.objs|, f), Releases(|s.objs|));
    AddsEffect(s, major, kind, devt, id, f);
    hide Adds, Releases, Cleanup;
    if f.cdev != 0 { ReleaseEffect(s, major, kind, devt, id, false); }
    else if f.add != 0 { ReleaseEffect(s, major, kind, devt, id, true); }
    else { LiveEffect(s, major, kind, devt, id); }
  }

  lemma {:induction false} RunAppend(s: State, major: nat, a: seq<Action>, b: seq<Action>)
    ensures Run(s, major, a + b) == Run(Run(s, major, a), major, b)
    decreases |a|
  {
    hide Step;
    if a == [] {
      assert a + b == b;
    } else {
      assert (a + b)[1..] == a[1..] + b;
      RunAppend(Step(s, major, a[0]), major, a[1..], b);
    }
  }

  /** What one creation does to the allocators, and the object it leaves. */
  function Created(s: State, major: nat, kind: Kind, f: Faults): State {
    if CreateError(s.minors, Ids(s, kind), f) != 0 then Last(s, Gone)
    else
      var minor, id := NewMinor(s.minors), NewId(Ids(s, kind));
      Last(WithIds(s.(minors := s.minors + {minor}), kind, Ids(s, kind) + {id}), Live(kind, MkDev(major, minor), id))
  }

  /** A creation with nothing in between, with its goto unwinding or its release, is a run of the stages above. */
  lemma CreateIsARun(s: State, major: nat, kind: Kind, f: Faults)
    ensures Run(s, major, CreateActs(|s.objs|, kind, f)) == Created(s, major, kind, f)
  {
    hide Run, LowestFree, Step;
    var o, alloc := |s.objs|, [New(kind), GetMinor(|s.objs|, f.minor), GetId(|s.objs|, f.id)];
    assert CreateActs(o, kind, f) == alloc + Cleanup(o, f);
    RunAppend(s, major, alloc, Cleanup(o, f));
    AllocEffect(s, major, kind, f);
    hide Cleanup;
    var m, i := IdaGet(s.minors, 0, DEV_MAX, f.minor), IdaGet(Ids(s, kind), 0, 0, f.id);
    if m.None? {
      GoneEffect(s, major, f);
    } else {
      var devt, s1 := MkDev(major, m.value), s.(minors := s.minors + {m.value});
      MinorMkDev(major, m.value);
      GivenBack(s.minors, m.value, 0, MINORMASK);
      if i.None? {
        IdGoneEffect(s1, major, kind, devt, f);
      } else {
        GivenBack(Ids(s, kind), i.value, 0, INT_MAX);
        BothEffect(WithIds(s1, kind, Ids(s, kind) + {i.value}), major, kind, devt, i.value, f);
      }
    }
  }

  lemma GivenBack(ids: set<nat>, n: nat, lo: nat, hi: int)
    requires LowestFree(ids, lo, hi) == Some(n)
    ensures n !in ids && ids + {n} - {n} == ids
  {
  }

  // ----- registered device numbers -----

  /** The object's cdev is registered. */
  predicate Registered(x: Obj) {
    x.Live? || ((x.Dying? || x.IdGone?) && x.cdev) || x.CdevLeft?
  }

  predicate Shares(objs: seq<Obj>, o: nat, p: nat) {
    o < |objs| && p < |objs| && o != p && Registered(objs[o]) && Registered(objs[p]) && objs[o].devt == objs[p].devt
  }

  /** No two registered cdevs have one device number. */
  ghost predicate NoSharedCdev(s: State) {
    forall o: nat, p: nat :: !Shares(s.objs, o, p)
  }

  /** A cdev is added under a number whose former owner has given the minor back but not yet deleted its cdev. */
  predicate AddsOver(s: State, a: Action, o: nat) {
    && a.AddCdev? && !a.err && a.o < |s.objs| && s.objs[a.o].HasBoth?
    && o < |s.objs| && s.objs[o].CdevLeft? && s.objs[o].devt == s.objs[a.o].devt
  }

  ghost predicate Overlaps(s: State, a: Action) {
    exists o: nat :: AddsOver(s, a, o)
  }

  /** A step changes at most one object, and registers or re-numbers one only by adding its cdev. */
  lemma StepRegisters(s: State, major: nat, a: Action, o: nat)
    requires o < |Step(s, major, a).objs| && Registered(Step(s, major, a).objs[o])
    ensures o < |s.objs|
    ensures Registered(s.objs[o]) ==> s.objs[o].devt == Step(s, major, a).objs[o].devt
    ensures !Registered(s.objs[o]) ==> a.AddCdev? && !a.err && a.o == o && s.objs[o].HasBoth?
    ensures !Registered(s.objs[o]) ==> Step(s, major, a).objs == s.objs[o := Step(s, major, a).objs[o]]
    ensures !Registered(s.objs[o]) ==> Step(s, major, a).objs[o].devt == s.objs[o].devt
  {
    hide IdaGet, WithIds, MkDev, Minor;
  }

  /** An object with a minor, and another one registered under the same number, are on either side of a release. */
  lemma SharerLeft(s: State, o: nat, p: nat)
    requires Inv(s) && o < |s.objs| && p < |s.objs| && o != p && s.objs[p].HasBoth?
    requires Registered(s.objs[o]) && s.objs[o].devt == s.objs[p].devt
    ensures s.objs[o].CdevLeft?
  {
    assert MinorOf(s.objs[p]).Some?;
  }

  /** The number stays unshared exactly when no cdev is added over one that is left. */
  lemma StepShares(s: State, major: nat, a: Action)
    requires Inv(s) && NoSharedCdev(s)
    ensures NoSharedCdev(Step(s, major, a)) <==> !Overlaps(s, a)
  {
    hide Inv, IdaGet, Step;
    var s' := Step(s, major, a);
    forall o: nat, p: nat | Shares(s'.objs, o, p) ensures Overlaps(s, a) {
      StepRegisters(s, major, a, o);
      StepRegisters(s, major, a, p);
      assert !Shares(s.objs, o, p);
      if Registered(s.objs[o]) {
        SharerLeft(s, o, p);
        assert AddsOver(s, a, o);
      } else {
        SharerLeft(s, p, o);
        assert AddsOver(s, a, p);
      }
    }
    if Overlaps(s, a) {
      var o: nat :| AddsOver(s, a, o);
      OverShares(s, major, a, o);
    }
  }

  lemma OverShares(s: State, major: nat, a: Action, o: nat)
    requires AddsOver(s, a, o)
    ensures Shares(Step(s, major, a).objs, o, a.o)
  {
  }

  lemma RunOne(s: State, major: nat, a: Action)
    ensures Run(s, major, [a]) == Step(s, major, a)
  {
    hide Step;
    RunThrough(major, [a], [s, Step(s, major, a)]);
  }

  lemma StepsTo(major: nat, acts: seq<Action>, k: nat)
    requires k < |acts|
    ensures Run(Empty, major, acts[..k + 1]) == Step(Run(Empty, major, acts[..k]), major, acts[k])
  {
    hide Step;
    assert acts[..k + 1] == acts[..k] + [acts[k]];
    RunAppend(Empty, major, acts[..k], [acts[k]]);
    RunOne(Run(Empty, major, acts[..k]), major, acts[k]);
  }

  lemma {:induction false} UnsharedUpTo(major: nat, acts: seq<Action>, n: nat)
    requires n <= |acts|
    ensures (forall k: nat :: k <= n ==> NoSharedCdev(Run(Empty, major, acts[..k]))) <==>
            (forall k: nat :: k < n ==> !Overlaps(Run(Empty, major, acts[..k]), acts[k]))
  {
    hide Step, NoSharedCdev, Overlaps, Run;
    if n == 0 {
      assert acts[..0] == [];
      NothingShared(major);
    } else {
      UnsharedUpTo(major, acts, n - 1);
      StepsTo(major, acts, n - 1);
      var s := Run(Empty, major, acts[..n - 1]);
      RunInv(Empty, major, acts[..n - 1]);
      if NoSharedCdev(s) { StepShares(s, major, acts[n - 1]); }
    }
  }

  /**
   * In every run: no two registered cdevs share a number at any time if and only if no cdev is ever added under a
   * number between the two steps of a release that give the minor back and delete the cdev.
   */
  lemma NumbersUnsharedExactly(major: nat, acts: seq<Action>)
    ensures (forall k: nat :: k <= |acts| ==> NoSharedCdev(Run(Empty, major, acts[..k]))) <==>
            (forall k: nat :: k < |acts| ==> !Overlaps(Run(Empty, major, acts[..k]), acts[k]))
  {
    UnsharedUpTo(major, acts, |acts|);
  }

  lemma NothingShared(major: nat)
    ensures NoSharedCdev(Run(Empty, major, []))
  {
  }

  /** Create a device, release it as far as its minor, and create another: both cdevs are registered under minor 0. */
  function Reuse(): seq<Action> {
    CreateActs(0, Ept, Faults(false, false, 0, 0)) + ([LastPut(0), RemoveId(0), RemoveMinor(0)]
    + CreateActs(1, Ept, Faults(false, false, 0, 0)))
  }

  lemma LowestOfNone(hi: int)
    requires hi >= 0
    ensures LowestFree({}, 0, hi) == Some(0)
  {
  }

  lemma FirstCreated(s: State, major: nat)
    requires s.minors == {} && s.epts == {}
    ensures Created(s, major, Ept, Faults(false, false, 0, 0)) ==
            Last(s.(minors := {0}, epts := {0}), Live(Ept, MkDev(major, 0), 0))
  {
    LowestOfNone(MINORMASK);
    LowestOfNone(INT_MAX);
    hide LowestFree;
    assert {} + {0} == {0};
  }

  lemma HalfReleased(major: nat)
    ensures Run(Last(Empty.(minors := {0}, epts := {0}), Live(Ept, MkDev(major, 0), 0)), major,
                [LastPut(0), RemoveId(0), RemoveMinor(0)]) == Last(Empty, CdevLeft(Ept, MkDev(major, 0)))
  {
    var d, s := MkDev(major, 0), Empty.(minors := {0}, epts := {0});
    MinorMkDev(major, 0);
    hide MkDev, Minor, Run;
    assert {0} - {0} == {};
    ReleaseSteps(s, major, Ept, d, 0, true);
    LastTwice(s, Live(Ept, d, 0), Dying(Ept, d, 0, true));
    assert Step(Last(s, Live(Ept, d, 0)), major, LastPut(0)) == Last(s, Dying(Ept, d, 0, true));
    hide Step;
    RunThrough(major, [LastPut(0), RemoveId(0), RemoveMinor(0)],
               [Last(s, Live(Ept, d, 0)), Last(s, Dying(Ept, d, 0, true)),
                Last(s.(epts := {}), IdGone(Ept, d, true)), Last(Empty, CdevLeft(Ept, d))]);
  }

  lemma NumberReused(major: nat)
    ensures Shares(Run(Empty, major, Reuse()).objs, 0, 1)
  {
    hide Run, CreateActs, Created, Step;
    var f, d := Faults(false, false, 0, 0), MkDev(major, 0);
    var middle := [LastPut(0), RemoveId(0), RemoveMinor(0)];
    FirstCreated(Empty, major);
    CreateIsARun(Empty, major, Ept, f);
    var s1 := Run(Empty, major, CreateActs(0, Ept, f));
    HalfReleased(major);
    var s2 := Last(Empty, CdevLeft(Ept, d));
    FirstCreated(s2, major);
    CreateIsARun(s2, major, Ept, f);
    RunAppend(s1, major, middle, CreateActs(1, Ept, f));
    RunAppend(Empty, major, CreateActs(0, Ept, f), middle + CreateActs(1, Ept, f));
  }

  // ----- the allocators as the driver updates them -----

  class Allocators {
    var minors: set<nat>
    var ctrls: set<nat>
    var epts: set<nat>

    constructor ()
      ensures Contents() == Empty
    {
      minors, ctrls, epts := {}, {}, {};
    }

    /** The allocators, with no device object. */
    ghost function Contents(): State
      reads this
    {
      State(minors, ctrls, epts, [])
    }

    method IdaRemove(kind: Kind, id: nat)
      modifies this`ctrls, this`epts
      ensures Contents() == WithIds(old(Contents()), kind, Ids(old(Contents()), kind) - {id})
    {
      if kind.Ctrl? {
        ctrls := ctrls - {id};
      } else {
        epts := epts - {id};
      }
    }

    /** The release function of a device of either kind. */
    method ReleaseDevice(kind: Kind, devt: nat, id: nat)
      modifies this
      ensures var s := old(Contents());
              Contents() == WithIds(s.(minors := s.minors - {Minor(devt)}), kind, Ids(s, kind) - {id})
      ensures minors == old(minors) - {devt % 0x10_0000}
      ensures kind == Ctrl ==> ctrls == old(ctrls) - {id} && epts == old(epts)
      ensures kind == Ept ==> ctrls == old(ctrls) && epts == old(epts) - {id}
    {
      IdaRemove(kind, id);
      minors := minors - {Minor(devt)};
    }

    /**
     * Create a control or endpoint device. The error is that of the first stage that fails, and then the allocators
     * are as they were; on success the device has the lowest free minor and the lowest free id of its kind.
     */
    method Create(major: nat, kind: Kind, f: Faults) returns (ret: int, devt: nat, id: nat)
      modifies this
      ensures ret == CreateError(old(minors), Ids(old(Contents()), kind), f)
      ensures ret != 0 ==> Contents() == old(Contents())
      ensures ret == if f.minor then -12
                     else if AllTaken(old(minors), 0xF_FFFF) then -28
                     else if f.id then -12
                     else if AllTaken(if kind == Ctrl then old(ctrls) else old(epts), 0x7FFF_FFFF) then -28
                     else if f.cdev != 0 then f.cdev
                     else f.add
      ensures ret != 0 ==> minors == old(minors) && ctrls == old(ctrls) && epts == old(epts)
      ensures ret == 0 ==> Lowest(old(minors), devt % 0x10_0000) && devt / 0x10_0000 == major % 0x1000
      ensures ret == 0 ==> Lowest(if kind == Ctrl then old(ctrls) else old(epts), id) && id <= 0x7FFF_FFFF
      ensures ret == 0 ==> minors == old(minors) + {devt % 0x10_0000}
      ensures ret == 0 && kind == Ctrl ==> ctrls == old(ctrls) + {id} && epts == old(epts)
      ensures ret == 0 && kind == Ept ==> ctrls == old(ctrls) && epts == old(epts) + {id}
      ensures ret == 0 ==>
                var s := old(Contents());
                && Contents() == WithIds(s.(minors := s.minors + {Minor(devt)}), kind, Ids(s, kind) + {id})
                && Last(Contents(), Live(kind, devt, id)) == Created(s, major, kind, f)
    {
      hide LowestFree, MkDev;
      CreateErrorExact(minors, if kind.Ctrl? then ctrls else epts, f);
      IdaGetExact(minors, f.minor);
      IdaGetExact(if kind.Ctrl? then ctrls else epts, f.id);
      devt, id := 0, 0;
      var m := IdaGet(minors, 0, DEV_MAX, f.minor);
      if m.None? {
        return IdaError(f.minor), devt, id;
      }
      minors := minors + {m.value};
      MinorMkDev(major, m.value);
      devt := MkDev(major, m.value);
      var i := IdaGet(if kind.Ctrl? then ctrls else epts, 0, 0, f.id);
      if i.None? {
        minors := minors - {Minor(devt)};
        return IdaError(f.id), devt, id;
      }
      id := i.value;
      if kind.Ctrl? { ctrls := ctrls + {id}; } else { epts := epts + {id}; }
      if f.cdev != 0 {
        IdaRemove(kind, id);
        minors := minors - {Minor(devt)};
        return f.cdev, devt, id;
      }
      // from here on the release function cleans up
      if f.add != 0 {
        ReleaseDevice(kind, devt, id);
      }
      return f.add, devt, id;
    }
  }
}

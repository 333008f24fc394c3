/**
 * The channels of every processor against the announcements: uniqueness over every history, which channels
 * exist after it, and exactly when registry and announcements part.
 */
module ChannelRegistry {
  import opened Common
  import opened DeviceNames
  import opened Wire
  import opened Channels

  // ----- the invariant, change by change -----

  lemma AppendInv(bus: Procs, p: nat, c: Channel)
    requires Inv(bus) && p < |bus| && AnyFirst(bus[p] + [c])
    requires c.devName == DeviceName(NameOf(c), ADDR_ANY, c.dst) && !Clash(bus, NameOf(c), c.dst)
    ensures Inv(bus[p := bus[p] + [c]])
  {
    hide DeviceName, NameOf, Rewrite;
    var bus' := bus[p := bus[p] + [c]];
    forall q: nat, i: nat | q < |bus| && i < |bus[q]| ensures !SameDevice(bus[q][i], c) {}
    assert Unique(bus');
  }

  lemma RemoveInv(bus: Procs, p: nat, r: nat)
    requires Inv(bus) && p < |bus| && r < |bus[p]|
    ensures Inv(bus[p := Without(bus[p], r)])
  {
    hide DeviceName, NameOf, Rewrite;
    var bus' := bus[p := Without(bus[p], r)];
    assert forall i: nat :: i < |bus'[p]| ==> bus'[p][i] == bus[p][if i < r then i else i + 1];
    assert Unique(bus');
  }

  lemma ProbeInv(bus: Procs, p: nat, i: nat, src: u32)
    requires Inv(bus) && p < |bus| && i < |bus[p]|
    ensures Inv(bus[p := bus[p][i := bus[p][i].(src := src)]])
  {
    hide DeviceName, Rewrite;
    var bus' := bus[p := bus[p][i := bus[p][i].(src := src)]];
    forall q: nat, j: nat | q < |bus'| && j < |bus'[q]|
      ensures j < |bus[q]| && NameOf(bus'[q][j]) == NameOf(bus[q][j])
      ensures bus'[q][j].dst == bus[q][j].dst && bus'[q][j].devName == bus[q][j].devName
    {}
    hide NameOf;
    assert Unique(bus');
  }

  /** A new channel may have a wildcard destination only if it is the first of its name. */
  lemma StaysFirst(chs: seq<Channel>, info: Info)
    requires AnyFirst(chs) && info.src == ADDR_ANY && FindDevice(chs, info).None?
    ensures AnyFirst(chs + [NewChannel(info)])
  {
    var c := NewChannel(info);
    NewName(info);
    forall i: nat | i < |chs| && NameOf(chs[i]) == NameOf(c) ensures c.dst != ADDR_ANY {
      MatchesExact(info, chs[i]);
      assert !Matches(info, chs[i]);
    }
  }

  lemma ApplyInv(bus: Procs, e: Event)
    requires Inv(bus)
    ensures Inv(Apply(bus, e))
  {
    hide Inv;
    if e.p < |bus| {
      match e
      case Ns(p, m, noMem, regErr) =>
        var info := Info(m.name, ADDR_ANY, m.addr);
        if m.destroy {
          if FindDevice(bus[p], info).Some? { RemoveInv(bus, p, FindDevice(bus[p], info).value); }
        } else if CreateChannel(bus, p, info, noMem, regErr).1 {
          CreateInv(bus, p, info);
        }
      case Probe(p, i, src) => if i < |bus[p]| { ProbeInv(bus, p, i, src); }
    }
  }

  lemma CreateInv(bus: Procs, p: nat, info: Info)
    requires Inv(bus) && p < |bus| && info.src == ADDR_ANY && CreateChannel(bus, p, info, false, false).1
    ensures Inv(bus[p := bus[p] + [NewChannel(info)]])
  {
    StaysFirst(bus[p], info);
    NewName(info);
    TakenExact(bus, CStr(info.name), info.dst);
    StrncpyKeeps(info.name);
    AppendInv(bus, p, NewChannel(info));
  }

  lemma {:induction false} AfterInv(n: nat, hist: seq<Event>)
    ensures Inv(After(n, hist))
  {
    hide Inv, Apply;
    if hist != [] {
      AfterInv(n, hist[..|hist| - 1]);
      ApplyInv(After(n, hist[..|hist| - 1]), hist[|hist| - 1]);
    } else {
      EmptyInv(n);
    }
  }

  lemma EmptyInv(n: nat)
    ensures Inv(seq(n, _ => []))
  {
  }

  /**
   * Over every history, failures and wildcards included, no two channels of the bus share a destination and
   * a rewritten name; in particular no two of one processor share a destination and a name.
   */
  lemma ChannelsUnique(n: nat, hist: seq<Event>, q: nat, i: nat, r: nat, j: nat)
    requires q < n && i < |After(n, hist)[q]| && r < n && j < |After(n, hist)[r]|
    ensures var a, b := After(n, hist)[q][i], After(n, hist)[r][j];
            a.devName == b.devName || (a.dst == b.dst && Rewrite(NameOf(a)) == Rewrite(NameOf(b))) ==> q == r && i == j
  {
    AfterInv(n, hist);
    var a, b := After(n, hist)[q][i], After(n, hist)[r][j];
    DeviceNameExact(NameOf(a), ADDR_ANY, a.dst, NameOf(b), ADDR_ANY, b.dst);
  }

  // ----- when a create collides -----

  /** Another processor's channel, or one with another name, that looks the same to the bus. */
  ghost predicate Foreign(bus: Procs, p: nat, name: seq<byte>, dst: u32) {
    exists q: nat, i: nat :: q < |bus| && i < |bus[q]| && LooksLike(bus[q][i], name, dst) &&
      (q != p || NameOf(bus[q][i]) != name)
  }

  /**
   * A create that finds no such channel at its processor is refused, with memory to spare and no other error,
   * exactly when a channel of another processor, or one whose name differs only by rewriting, is in the way.
   */
  lemma NoNameCollision(n: nat, hist: seq<Event>, p: nat, info: Info)
    requires p < n && info.src == ADDR_ANY && FindDevice(After(n, hist)[p], info).None?
    ensures CreateChannel(After(n, hist), p, info, false, false).1 <==>
            !Foreign(After(n, hist), p, CStr(info.name), info.dst)
  {
    var bus, name := After(n, hist), CStr(info.name);
    AfterInv(n, hist);
    TakenExact(bus, name, info.dst);
    StrncpyKeeps(info.name);
    if Clash(bus, name, info.dst) {
      var q: nat, i: nat :| q < |bus| && i < |bus[q]| && LooksLike(bus[q][i], name, info.dst);
      if q == p {
        MatchesExact(info, bus[p][i]);
        assert !Matches(info, bus[p][i]);
      }
      assert Foreign(bus, p, name, info.dst);
    }
  }

  // ----- what exists after a history -----

  ghost predicate Exists(chs: seq<Channel>, name: seq<byte>, dst: u32) {
    exists i: nat :: i < |chs| && NameOf(chs[i]) == name && chs[i].dst == dst
  }

  /**
   * An announcement by processor `p` about this very name and destination. A create that fails for memory, or for an
   * error of registration other than a name in use, says nothing.
   */
  predicate Speaks(e: Event, p: nat, name: seq<byte>, dst: u32) {
    e.Ns? && e.p == p && CStr(e.m.name) == name && e.m.addr == dst && (e.m.destroy || !(e.noMem || e.regErr))
  }

  /** What the announcements say: the last one about the channel was a create. */
  predicate Said(hist: seq<Event>, p: nat, name: seq<byte>, dst: u32) {
    if hist == [] then false
    else
      var e := hist[|hist| - 1];
      if Speaks(e, p, name, dst) then !e.m.destroy else Said(hist[..|hist| - 1], p, name, dst)
  }

  /** The processor's oldest channel of the announced name. */
  function Oldest(bus: Procs, e: Event): Option<Channel>
    requires e.Ns? && e.p < |bus|
  {
    var r := FindDevice(bus[e.p], Info(e.m.name, ADDR_ANY, ADDR_ANY));
    if r.Some? then Some(bus[e.p][r.value]) else None
  }

  /** A wildcard destroy that finds a channel with a destination of its own, and removes it. */
  predicate Steals(bus: Procs, e: Event) {
    && e.Ns? && e.p < |bus| && e.m.destroy && e.m.addr == ADDR_ANY
    && Oldest(bus, e).Some? && Oldest(bus, e).value.dst != ADDR_ANY
  }

  /**
   * A create that fails although memory and bus are ready for it: a wildcard create while the name is in use, or
   * one whose device name is taken by a channel that is not the one announced.
   */
  predicate Refused(bus: Procs, e: Event) {
    && e.Ns? && e.p < |bus| && !e.m.destroy && !e.noMem && !e.regErr
    && var info := Info(e.m.name, ADDR_ANY, e.m.addr);
       || (e.m.addr == ADDR_ANY && Oldest(bus, e).Some? && Oldest(bus, e).value.dst != ADDR_ANY)
       || (FindDevice(bus[e.p], info).None? && NameTaken(bus, NewChannel(info).devName))
  }

  /** Since the channel was last spoken of: its create was refused, or a wildcard destroy took it. */
  predicate Overruled(n: nat, hist: seq<Event>, p: nat, name: seq<byte>, dst: u32) {
    if hist == [] then false
    else
      var front, e := hist[..|hist| - 1], hist[|hist| - 1];
      if Speaks(e, p, name, dst) then Refused(After(n, front), e)
      else Overruled(n, front, p, name, dst) || Takes(After(n, front), e, p, name, dst)
  }

  predicate Takes(bus: Procs, e: Event, p: nat, name: seq<byte>, dst: u32) {
    Steals(bus, e) && e.p == p && CStr(e.m.name) == name && Oldest(bus, e).value.dst == dst
  }

  // ----- the effect of one event -----

  /** Removing one channel removes its name and destination and nothing else. */
  lemma RemoveEffect(bus: Procs, p: nat, r: nat, name: seq<byte>, dst: u32)
    requires Unique(bus) && p < |bus| && r < |bus[p]|
    ensures Exists(Without(bus[p], r), name, dst) <==>
            Exists(bus[p], name, dst) && !(NameOf(bus[p][r]) == name && bus[p][r].dst == dst)
  {
    hide NameOf;
    var chs, chs' := bus[p], Without(bus[p], r);
    assert forall i: nat :: i < |chs'| ==> chs'[i] == chs[if i < r then i else i + 1];
    if Exists(chs, name, dst) && !(NameOf(chs[r]) == name && chs[r].dst == dst) {
      var i: nat :| i < |chs| && NameOf(chs[i]) == name && chs[i].dst == dst;
      assert chs'[if i < r then i else i - 1] == chs[i];
    }
    if Exists(chs', name, dst) {
      var i: nat :| i < |chs'| && NameOf(chs'[i]) == name && chs'[i].dst == dst;
      var k := if i < r then i else i + 1;
      assert chs[k] == chs'[i] && (SameDevice(chs[k], chs[r]) ==> k == r);
    }
  }

  lemma AppendEffect(chs: seq<Channel>, c: Channel, name: seq<byte>, dst: u32)
    ensures Exists(chs + [c], name, dst) <==> Exists(chs, name, dst) || (NameOf(c) == name && c.dst == dst)
  {
    hide NameOf;
    if Exists(chs, name, dst) {
      var i: nat :| i < |chs| && NameOf(chs[i]) == name && chs[i].dst == dst;
      assert (chs + [c])[i] == chs[i];
    }
    assert (chs + [c])[|chs|] == c;
  }

  /** Looking for one destination finds the channel if it is there. */
  lemma FindsOne(chs: seq<Channel>, name: NameArray, dst: u32)
    requires dst != ADDR_ANY
    ensures var r := FindDevice(chs, Info(name, ADDR_ANY, dst));
            && (r.Some? <==> Exists(chs, CStr(name), dst))
            && (r.Some? ==> NameOf(chs[r.value]) == CStr(name) && chs[r.value].dst == dst)
  {
    var info := Info(name, ADDR_ANY, dst);
    var r := FindDevice(chs, info);
    forall i: nat | i < |chs| ensures Matches(info, chs[i]) <==> NameOf(chs[i]) == CStr(name) && chs[i].dst == dst {
      MatchesExact(info, chs[i]);
    }
    hide Matches, NameOf;
    if r.Some? { assert Matches(info, chs[r.value]); }
  }

  /** Looking for any destination finds the oldest of the name; only it can have a wildcard destination. */
  lemma FindsOldest(chs: seq<Channel>, name: NameArray)
    requires AnyFirst(chs)
    ensures var r := FindDevice(chs, Info(name, ADDR_ANY, ADDR_ANY));
            && (r.None? ==> forall dst: u32 :: !Exists(chs, CStr(name), dst))
            && (r.Some? ==> NameOf(chs[r.value]) == CStr(name))
            && (r.Some? ==> (Exists(chs, CStr(name), ADDR_ANY) <==> chs[r.value].dst == ADDR_ANY))
  {
    var info := Info(name, ADDR_ANY, ADDR_ANY);
    var r := FindDevice(chs, info);
    forall i: nat | i < |chs| ensures Matches(info, chs[i]) <==> NameOf(chs[i]) == CStr(name) {
      MatchesExact(info, chs[i]);
    }
    hide Matches, NameOf;
    if r.Some? {
      assert Matches(info, chs[r.value]);
      if Exists(chs, CStr(name), ADDR_ANY) {
        var i: nat :| i < |chs| && NameOf(chs[i]) == CStr(name) && chs[i].dst == ADDR_ANY;
        assert Matches(info, chs[i]);
      }
    }
  }

  lemma DestroyEffect(bus: Procs, e: Event, name: seq<byte>, dst: u32)
    requires Inv(bus) && e.Ns? && e.p < |bus| && e.m.destroy
    ensures Exists(Apply(bus, e)[e.p], name, dst) <==>
            Exists(bus[e.p], name, dst) && !Speaks(e, e.p, name, dst) && !Takes(bus, e, e.p, name, dst)
  {
    var p, r := e.p, FindDevice(bus[e.p], Info(e.m.name, ADDR_ANY, e.m.addr));
    if e.m.addr == ADDR_ANY { FindsOldest(bus[p], e.m.name); } else { FindsOne(bus[p], e.m.name, e.m.addr); }
    if r.Some? { RemoveEffect(bus, p, r.value, name, dst); }
    hide Inv, CreateChannel, Matches, CStr, Exists, SameDevice;
  }

  lemma CreateEffect(bus: Procs, e: Event, name: seq<byte>, dst: u32)
    requires Inv(bus) && e.Ns? && e.p < |bus| && !e.m.destroy
    ensures Exists(Apply(bus, e)[e.p], name, dst) <==>
            if Speaks(e, e.p, name, dst) then !Refused(bus, e) else Exists(bus[e.p], name, dst)
  {
    var p, info := e.p, Info(e.m.name, ADDR_ANY, e.m.addr);
    NewName(info);
    if e.m.addr == ADDR_ANY { FindsOldest(bus[p], e.m.name); } else { FindsOne(bus[p], e.m.name, e.m.addr); }
    AppendEffect(bus[p], NewChannel(info), name, dst);
  }

  lemma ProbeEffect(bus: Procs, e: Event, p: nat, name: seq<byte>, dst: u32)
    requires e.Probe? && p < |bus|
    ensures Exists(Apply(bus, e)[p], name, dst) <==> Exists(bus[p], name, dst)
  {
    var chs, chs' := bus[p], Apply(bus, e)[p];
    assert |chs'| == |chs|;
    assert forall k: nat :: k < |chs| ==> NameOf(chs'[k]) == NameOf(chs[k]) && chs'[k].dst == chs[k].dst;
  }

  /** What one event does to one channel of one processor. */
  lemma ApplyEffect(bus: Procs, e: Event, p: nat, name: seq<byte>, dst: u32)
    requires Inv(bus) && p < |bus|
    ensures Exists(Apply(bus, e)[p], name, dst) <==>
            if Speaks(e, p, name, dst) then !e.m.destroy && !Refused(bus, e)
            else Exists(bus[p], name, dst) && !Takes(bus, e, p, name, dst)
  {
    if e.Probe? {
      ProbeEffect(bus, e, p, name, dst);
    } else if e.p == p {
      hide Inv, Apply, Exists, Refused;
      if e.m.destroy { DestroyEffect(bus, e, name, dst); } else { CreateEffect(bus, e, name, dst); }
    } else {
      assert Apply(bus, e)[p] == bus[p];
    }
  }

  // ----- exactness -----

  /**
   * For every history: a channel exists exactly when the last announcement about it was a create and it has not
   * been overruled since, by a refusal or by a wildcard destroy.
   */
  lemma {:induction false} RegistryExact(n: nat, hist: seq<Event>, p: nat, name: seq<byte>, dst: u32)
    requires p < n
    ensures Exists(After(n, hist)[p], name, dst) <==> Said(hist, p, name, dst) && !Overruled(n, hist, p, name, dst)
  {
    if hist != [] {
      var front, e := hist[..|hist| - 1], hist[|hist| - 1];
      RegistryExact(n, front, p, name, dst);
      AfterInv(n, front);
      hide Inv, Exists, Apply, Speaks, Refused, Takes;
      ApplyEffect(After(n, front), e, p, name, dst);
    }
  }

  /** The registry is what the announcements say, at every processor. */
  ghost predicate Agrees(n: nat, hist: seq<Event>) {
    forall p: nat, name: seq<byte>, dst: u32 :: p < n ==>
      (Exists(After(n, hist)[p], name, dst) <==> Said(hist, p, name, dst))
  }

  /** The announcement takes one of the branches that set the registry apart. */
  predicate Breaks(bus: Procs, e: Event) {
    Refused(bus, e) || Steals(bus, e)
  }

  lemma OneMore(n: nat, hist: seq<Event>, e: Event)
    ensures (hist + [e])[..|hist|] == hist && After(n, hist + [e]) == Apply(After(n, hist), e)
  {
    assert (hist + [e])[..|hist|] == hist;
  }

  lemma OneMoreSaid(hist: seq<Event>, e: Event, p: nat, name: seq<byte>, dst: u32)
    ensures Said(hist + [e], p, name, dst) <==>
            if Speaks(e, p, name, dst) then !e.m.destroy else Said(hist, p, name, dst)
  {
    assert (hist + [e])[..|hist|] == hist;
  }

  lemma BreaksAgreement(n: nat, hist: seq<Event>, e: Event)
    requires Agrees(n, hist) && Breaks(After(n, hist), e)
    ensures !Agrees(n, hist + [e])
  {
    AfterInv(n, hist);
    OneMore(n, hist, e);
    var bus, name := After(n, hist), CStr(e.m.name);
    var dst := if e.m.destroy then Oldest(bus, e).value.dst else e.m.addr;
    if e.m.destroy { OldestExists(bus, e); }
    assert Exists(bus[e.p], name, dst) <==> Said(hist, e.p, name, dst);
    hide Inv, Exists, Apply, FindDevice, Agrees, Said;
    ApplyEffect(bus, e, e.p, name, dst);
    OneMoreSaid(hist, e, e.p, name, dst);
    assert Exists(After(n, hist + [e])[e.p], name, dst) != Said(hist + [e], e.p, name, dst);
    Disagrees(n, hist + [e], e.p, name, dst);
  }

  lemma Disagrees(n: nat, hist: seq<Event>, p: nat, name: seq<byte>, dst: u32)
    requires p < n && Exists(After(n, hist)[p], name, dst) != Said(hist, p, name, dst)
    ensures !Agrees(n, hist)
  {
  }

  lemma OldestExists(bus: Procs, e: Event)
    requires Inv(bus) && e.Ns? && e.p < |bus| && Oldest(bus, e).Some?
    ensures Exists(bus[e.p], CStr(e.m.name), Oldest(bus, e).value.dst)
  {
    FindsOldest(bus[e.p], e.m.name);
  }

  lemma KeepsAgreement(n: nat, hist: seq<Event>, e: Event)
    requires Agrees(n, hist) && !Breaks(After(n, hist), e)
    ensures Agrees(n, hist + [e])
  {
    AfterInv(n, hist);
    OneMore(n, hist, e);
    var bus := After(n, hist);
    forall p: nat, name: seq<byte>, dst: u32 | p < n
      ensures Exists(After(n, hist + [e])[p], name, dst) <==> Said(hist + [e], p, name, dst)
    {
      assert Exists(bus[p], name, dst) <==> Said(hist, p, name, dst);
      hide Inv, Exists, Apply, Agrees, Said, Refused, Steals, Speaks;
      ApplyEffect(bus, e, p, name, dst);
      OneMoreSaid(hist, e, p, name, dst);
    }
  }

  /**
   * Registry and announcements agree after every prefix of a history exactly when no announcement of it is a
   * wildcard destroy that finds a channel with a destination of its own, a wildcard create of a name in use, or
   * a create whose device name another channel of the bus has.
   */
  lemma {:induction false} AgreesExactly(n: nat, hist: seq<Event>)
    ensures (forall k: nat :: k <= |hist| ==> Agrees(n, hist[..k])) <==>
            (forall k: nat :: k < |hist| ==> !Breaks(After(n, hist[..k]), hist[k]))
  {
    hide Agrees, Breaks, After;
    if hist == [] {
      NothingYet(n);
      assert forall k: nat :: k <= |hist| ==> hist[..k] == [];
    } else {
      var front, e := hist[..|hist| - 1], hist[|hist| - 1];
      AgreesExactly(n, front);
      assert forall k: nat :: k <= |front| ==> front[..k] == hist[..k];
      assert forall k: nat :: k < |front| ==> front[k] == hist[k];
      assert hist[..|hist|] == hist == front + [e] && hist[..|front|] == front;
      if Agrees(n, front) {
        if Breaks(After(n, front), e) { BreaksAgreement(n, front, e); } else { KeepsAgreement(n, front, e); }
      }
    }
  }

  lemma NothingYet(n: nat)
    ensures Agrees(n, [])
  {
  }

  /** One processor, no wildcard address, no slash in a name. */
  predicate Plain(hist: seq<Event>) {
    forall i :: 0 <= i < |hist| && hist[i].Ns? ==>
      hist[i].p == 0 && hist[i].m.addr != ADDR_ANY && SLASH !in CStr(hist[i].m.name)
  }

  lemma PlainNoBreak(hist: seq<Event>, e: Event)
    requires Plain(hist + [e])
    ensures !Breaks(After(1, hist), e)
    ensures forall name: seq<byte>, dst: u32 :: Exists(After(1, hist)[0], name, dst) ==> SLASH !in name
    decreases |hist|
  {
    var bus := After(1, hist);
    AfterInv(1, hist);
    forall name: seq<byte>, dst: u32 | Exists(bus[0], name, dst) ensures SLASH !in name {
      RegistryExact(1, hist, 0, name, dst);
      SaidPlain(hist, e, name, dst);
    }
    if e.Ns? {
      assert (hist + [e])[|hist|] == e;
      PlainFree(bus, e);
    }
  }

  lemma {:induction false} SaidPlain(hist: seq<Event>, e: Event, name: seq<byte>, dst: u32)
    requires Plain(hist + [e]) && Said(hist, 0, name, dst)
    ensures SLASH !in name
    decreases |hist|
  {
    if hist != [] {
      var front, f := hist[..|hist| - 1], hist[|hist| - 1];
      assert (hist + [e])[|hist| - 1] == f;
      if !Speaks(f, 0, name, dst) {
        assert forall i :: 0 <= i < |hist| ==> (front + [f])[i] == (hist + [e])[i];
        SaidPlain(front, f, name, dst);
      }
    }
  }

  lemma PlainFree(bus: Procs, e: Event)
    requires Inv(bus) && |bus| == 1 && e.Ns? && e.p == 0 && e.m.addr != ADDR_ANY && SLASH !in CStr(e.m.name)
    requires forall name: seq<byte>, dst: u32 :: Exists(bus[0], name, dst) ==> SLASH !in name
    ensures !Breaks(bus, e)
  {
    var name, dst := CStr(e.m.name), e.m.addr;
    var info := Info(e.m.name, ADDR_ANY, dst);
    FindsOne(bus[0], e.m.name, dst);
    TakenExact(bus, name, dst);
    StrncpyKeeps(e.m.name);
    if Clash(bus, name, dst) {
      var q: nat, i: nat :| q < |bus| && i < |bus[q]| && LooksLike(bus[q][i], name, dst);
      assert Exists(bus[0], NameOf(bus[0][i]), dst);
      RewriteSame(NameOf(bus[0][i]));
      RewriteSame(name);
    }
  }

  /** On such histories the registry is always what the announcements say, failed creates saying nothing. */
  lemma PlainAgrees(hist: seq<Event>)
    requires Plain(hist)
    ensures Agrees(1, hist)
  {
    forall k: nat | k < |hist| ensures !Breaks(After(1, hist[..k]), hist[k]) {
      assert forall i :: 0 <= i <= k ==> (hist[..k] + [hist[k]])[i] == hist[i];
      PlainNoBreak(hist[..k], hist[k]);
    }
    AgreesExactly(1, hist);
    assert hist[..|hist|] == hist;
  }

  // ----- inputs -----

  /** The name array of a short string, and its create and destroy announcements. */
  function Named(s: seq<byte>): NameArray
    requires |s| <= NAME_SIZE
  {
    s + Zeros(NAME_SIZE - |s|)
  }

  lemma NamedString(s: seq<byte>)
    requires |s| <= NAME_SIZE && 0 !in s
    ensures CStr(Named(s)) == s
  {
    CStrPadded(s, NAME_SIZE - |s|);
  }

  function Created(p: nat, s: seq<byte>, dst: u32): Event
    requires |s| <= NAME_SIZE
  {
    Ns(p, NsMsg(Named(s), dst, false), false, false)
  }

  function Destroyed(p: nat, s: seq<byte>, dst: u32): Event
    requires |s| <= NAME_SIZE
  {
    Ns(p, NsMsg(Named(s), dst, true), false, false)
  }

  /** A wildcard destroy takes the processor's oldest channel of that name, whatever its destination, and no other. */
  lemma WildcardDestroy(n: nat, hist: seq<Event>, p: nat, s: seq<byte>, name: seq<byte>, dst: u32)
    requires p < n && |s| <= NAME_SIZE && 0 !in s
    ensures var chs := After(n, hist)[p];
            var r := FindDevice(chs, Info(Named(s), ADDR_ANY, ADDR_ANY));
            Exists(After(n, hist + [Destroyed(p, s, ADDR_ANY)])[p], name, dst) <==>
            Exists(chs, name, dst) && !(r.Some? && NameOf(chs[r.value]) == name && chs[r.value].dst == dst)
  {
    var bus, e := After(n, hist), Destroyed(p, s, ADDR_ANY);
    AfterInv(n, hist);
    OneMore(n, hist, e);
    FindsOldest(bus[p], Named(s));
    hide Inv;
    ApplyEffect(bus, e, p, name, dst);
  }

  /** The first announcement of a history, a create, takes effect. */
  lemma FirstCreate(n: nat, p: nat, s: seq<byte>, dst: u32)
    requires p < n && |s| <= NAME_SIZE && 0 !in s
    ensures Exists(After(n, [Created(p, s, dst)])[p], s, dst) && Said([Created(p, s, dst)], p, s, dst)
  {
    var e := Created(p, s, dst);
    NamedString(s);
    OneMore(n, [], e);
    EmptyInv(n);
    assert [] + [e] == [e];
    ApplyEffect(After(n, []), e, p, s, dst);
    OneMoreSaid([], e, p, s, dst);
  }

  /** Create (a, 5), then destroy every a: the channel is gone, though nobody destroyed (a, 5). */
  lemma WildcardBreaksExactness()
    ensures var hist := [Created(0, [97], 5), Destroyed(0, [97], ADDR_ANY)];
            Said(hist, 0, [97], 5) && !Exists(After(1, hist)[0], [97], 5)
  {
    var c, d := Created(0, [97], 5), Destroyed(0, [97], ADDR_ANY);
    FirstCreate(1, 0, [97], 5);
    NamedString([97]);
    assert [c] + [d] == [c, d];
    OneMoreSaid([c], d, 0, [97], 5);
    WildcardDestroy(1, [c], 0, [97], [97], 5);
    var chs := After(1, [c])[0];
    OneMore(1, [], c);
    assert [] + [c] == [c] && |chs| == 1;
  }

  /** A create refused because the bus already has the device name, or the processor the service name. */
  lemma SecondRefused(n: nat, c: Event, p: nat, s: seq<byte>, dst: u32)
    requires p < n && |s| <= NAME_SIZE && 0 !in s && Refused(After(n, [c]), Created(p, s, dst))
    ensures var hist := [c, Created(p, s, dst)];
            Said(hist, p, s, dst) && !Exists(After(n, hist)[p], s, dst)
  {
    var e := Created(p, s, dst);
    NamedString(s);
    assert [c] + [e] == [c, e];
    OneMoreSaid([c], e, p, s, dst);
    OneMore(n, [c], e);
    RegistryExact(n, [c, e], p, s, dst);
  }

  /** Create (a, 5), then create (a, any): the second finds the first and is refused, with no destroy anywhere. */
  lemma WildcardCreateRefused()
    ensures var hist := [Created(0, [97], 5), Created(0, [97], ADDR_ANY)];
            Said(hist, 0, [97], ADDR_ANY) && !Exists(After(1, hist)[0], [97], ADDR_ANY)
  {
    var c := Created(0, [97], 5);
    FirstCreate(1, 0, [97], 5);
    NamedString([97]);
    AfterInv(1, [c]);
    FindsOldest(After(1, [c])[0], Named([97]));
    OneMore(1, [], c);
    assert [] + [c] == [c] && |After(1, [c])[0]| == 1;
    SecondRefused(1, c, 0, [97], ADDR_ANY);
  }

  /** A channel that looks like an earlier one to the bus is refused. */
  lemma LooksTaken(n: nat, p: nat, s: seq<byte>, q: nat, s': seq<byte>, dst: u32)
    requires p < n && q < n && |s| <= NAME_SIZE && |s'| <= NAME_SIZE && 0 !in s && 0 !in s'
    requires Rewrite(s) == Rewrite(s') && (p != q || s != s') && dst != ADDR_ANY
    ensures var hist := [Created(p, s, dst), Created(q, s', dst)];
            Said(hist, q, s', dst) && !Exists(After(n, hist)[q], s', dst)
  {
    var c, bus := Created(p, s, dst), After(n, [Created(p, s, dst)]);
    FirstCreate(n, p, s, dst);
    NamedString(s);
    NamedString(s');
    OneMore(n, [], c);
    assert [] + [c] == [c];
    OneMoreSaid([], c, q, s', dst);
    RegistryExact(n, [c], q, s', dst);
    FindsOne(bus[q], Named(s'), dst);
    AfterInv(n, [c]);
    var i: nat :| i < |bus[p]| && NameOf(bus[p][i]) == s && bus[p][i].dst == dst;
    assert Clash(bus, s', dst);
    TakenExact(bus, s', dst);
    StrncpyKeeps(Named(s'));
    SecondRefused(n, c, q, s', dst);
  }

  /** Two processors announce one service: the second gets no channel. */
  lemma ProcessorsCollide()
    ensures var hist := [Created(0, [97], 5), Created(1, [97], 5)];
            Said(hist, 1, [97], 5) && !Exists(After(2, hist)[1], [97], 5)
  {
    LooksTaken(2, 0, [97], 1, [97], 5);
  }

  /** One processor announces a/b and a!b: the second gets no channel. */
  lemma SlashCollides()
    ensures var hist := [Created(0, [97, SLASH, 98], 5), Created(0, [97, BANG, 98], 5)];
            Said(hist, 0, [97, BANG, 98], 5) && !Exists(After(1, hist)[0], [97, BANG, 98], 5)
  {
    LooksTaken(1, 0, [97, SLASH, 98], 0, [97, BANG, 98], 5);
  }

  // ----- an announcement, from its bytes to the channels -----

  /** The service name that arrives: 31 characters at most. */
  function Cut(s: seq<byte>): seq<byte> {
    if |s| > 31 then s[..31] else s
  }

  /**
   * One announcement after any history: whether each channel exists then is decided by the announced name cut to 31
   * characters, the address, and the lowest bit of the flags, which says destroy.
   */
  lemma AnnouncementExact(n: nat, hist: seq<Event>, p: nat, name: NameArray, addr: u32, flags: u32,
                          noMem: bool, regErr: bool, q: nat, s: seq<byte>, dst: u32)
    requires p < n && q < n
    ensures var bus, e := After(n, hist), Ns(p, ParseNs(EncodeNs(name, addr, flags)), noMem, regErr);
            Exists(After(n, hist + [e])[q], s, dst) <==>
            if q == p && s == Cut(CStr(name)) && dst == addr && (flags % 2 == 1 || !(noMem || regErr)) then
              flags % 2 == 0 && !Refused(bus, e)
            else
              && Said(hist, q, s, dst) && !Overruled(n, hist, q, s, dst)
              && !(q == p && s == Cut(CStr(name)) && addr == ADDR_ANY && flags % 2 == 1 &&
                   Oldest(bus, e).Some? && Oldest(bus, e).value.dst == dst)
  {
    var bus, e := After(n, hist), Ns(p, ParseNs(EncodeNs(name, addr, flags)), noMem, regErr);
    ParseEncode(name, addr, flags);
    hide ParseNs, EncodeNs;
    AfterInv(n, hist);
    OneMore(n, hist, e);
    RegistryExact(n, hist, q, s, dst);
    hide Inv, Exists, Apply, FindDevice, Refused, Said, Overruled;
    ApplyEffect(bus, e, q, s, dst);
  }

  /** The event is this announcement by processor `p`. */
  predicate Announces(e: Event, p: nat, name: seq<byte>, addr: u32, destroy: bool) {
    e.Ns? && e.p == p && CStr(e.m.name) == name && e.m.addr == addr && e.m.destroy == destroy
  }

  lemma Announced(p: nat, data: seq<byte>, noMem: bool, regErr: bool)
    requires |data| == 40
    ensures forall name: NameArray, addr: u32, flags: u32 :: data == EncodeNs(name, addr, flags) ==>
              Announces(Ns(p, ParseNs(data), noMem, regErr), p, Cut(CStr(name)), addr, flags % 2 == 1)
  {
    forall name: NameArray, addr: u32, flags: u32 | data == EncodeNs(name, addr, flags)
      ensures Announces(Ns(p, ParseNs(data), noMem, regErr), p, Cut(CStr(name)), addr, flags % 2 == 1)
    {
      ParseEncode(name, addr, flags);
    }
  }

  // ----- the bus object -----

  class Bus {
    var procs: Procs
    ghost var hist: seq<Event>

    constructor (n: nat)
      ensures procs == After(n, []) && hist == [] && Reached()
    {
      procs, hist := seq(n, _ => []), [];
    }

    /** The channels are those after the history. */
    ghost predicate Reached()
      reads this
    {
      procs == After(|procs|, hist)
    }

    /**
     * A new channel with the name and addresses asked for, registered last, unless there is one already at the
     * processor, memory or registration fails, or the device name is taken on the bus.
     */
    method RpmsgCreateChannel(p: nat, info: Info, noMem: bool, regErr: bool) returns (ok: bool)
      requires p < |procs|
      modifies this`procs
      ensures (procs, ok) == CreateChannel(old(procs), p, info, noMem, regErr)
      ensures ok <==>
              && (forall i: nat :: i < |old(procs)[p]| ==> !Matches(info, old(procs)[p][i])) && !noMem && !regErr
              && !NameTaken(old(procs), DeviceName(CStr(info.name), info.src, info.dst))
      ensures !ok ==> procs == old(procs)
      ensures ok ==>
                && |procs| == |old(procs)| && |procs[p]| == |old(procs)[p]| + 1
                && procs == old(procs)[p := old(procs)[p] + [procs[p][|old(procs)[p]|]]]
                && NameOf(procs[p][|old(procs)[p]|]) == CStr(info.name)
                && procs[p][|old(procs)[p]|].src == info.src && procs[p][|old(procs)[p]|].dst == info.dst
                && procs[p][|old(procs)[p]|].devName == DeviceName(CStr(info.name), info.src, info.dst)
    {
      NewName(info);
      StrncpyKeeps(info.name);
      hide DeviceName, NameTaken, Matches;
      var tmp := FindDevice(procs[p], info);
      if tmp.Some? || noMem {
        return false;
      }
      var name := Strncpy(info.name);
      var devName := DeviceName(CStr(name), info.src, info.dst);
      if regErr || NameTaken(procs, devName) {
        return false;
      }
      procs := procs[p := procs[p] + [Channel(name, info.src, info.dst, devName)]];
      return true;
    }

    /** The first matching channel goes, and no other; EINVAL when none matches. */
    method RpmsgUnregisterDevice(p: nat, info: Info) returns (ret: int)
      requires p < |procs|
      modifies this`procs
      ensures (procs, ret) == UnregisterDevice(old(procs), p, info)
      ensures ret == if exists i: nat :: i < |old(procs)[p]| && Matches(info, old(procs)[p][i]) then 0 else -22
      ensures ret != 0 ==> procs == old(procs)
      ensures ret == 0 ==>
                exists r: nat :: r < |old(procs)[p]| && Matches(info, old(procs)[p][r])
                  && (forall i: nat :: i < r ==> !Matches(info, old(procs)[p][i]))
                  && procs == old(procs)[p := old(procs)[p][..r] + old(procs)[p][r + 1..]]
    {
      hide Matches;
      var dev := FindDevice(procs[p], info);
      if dev.None? {
        return EINVAL;
      }
      procs := procs[p := procs[p][..dev.value] + procs[p][dev.value + 1..]];
      return 0;
    }

    /** A driver's probe binds the source address of a channel. */
    method BindSource(p: nat, i: nat, src: u32)
      requires p < |procs| && i < |procs[p]|
      modifies this
      ensures old(Reached()) ==> Reached()
      ensures procs == old(procs)[p := old(procs)[p][i := old(procs)[p][i].(src := src)]]
    {
      OneMore(|procs|, hist, Probe(p, i, src));
      procs, hist := procs[p := procs[p][i := procs[p][i].(src := src)]], hist + [Probe(p, i, src)];
    }

    /**
     * The callback of a processor's name service endpoint. It is refused, with no effect, when the length is wrong or
     * a device is given; otherwise it is the announcement in its bytes: what exists afterwards is what the history
     * extended by that announcement says.
     */
    method RpmsgNsCb(p: nat, hasRpdev: bool, data: seq<byte>, noMem: bool, regErr: bool) returns (ret: int)
      requires p < |procs|
      modifies this
      ensures |procs| == |old(procs)| && (old(Reached()) ==> Reached())
      ensures ret == if |data| != 40 || hasRpdev then -22 else 0
      ensures ret != 0 ==> procs == old(procs) && hist == old(hist)
      ensures ret == 0 ==>
                && |hist| == |old(hist)| + 1 && old(hist) <= hist && procs == Apply(old(procs), hist[|hist| - 1])
                && Announces(hist[|hist| - 1], p, CStr(data[..31]), U32At(data, 32), data[36] % 2 == 1)
                && hist[|hist| - 1].noMem == noMem && hist[|hist| - 1].regErr == regErr
      ensures forall name: NameArray, addr: u32, flags: u32 ::
                ret == 0 && data == EncodeNs(name, addr, flags) ==>
                  Announces(hist[|hist| - 1], p, Cut(CStr(name)), addr, flags % 2 == 1)
      ensures old(Reached()) ==>
                forall q: nat, s: seq<byte>, dst: u32 :: q < |procs| ==>
                  (Exists(procs[q], s, dst) <==> Said(hist, q, s, dst) && !Overruled(|procs|, hist, q, s, dst))
    {
      if |data| != NS_MSG_SIZE {
        ExistsNow(this);
        return EINVAL;
      }
      if hasRpdev {
        ExistsNow(this);
        return EINVAL;
      }
      var m := ParseNs(data);
      var info := Info(m.name, ADDR_ANY, m.addr);
      if m.destroy {
        var err := RpmsgUnregisterDevice(p, info);
      } else {
        var newch := RpmsgCreateChannel(p, info, noMem, regErr);
      }
      hide ParseNs, EncodeNs, Cut, CStr;
      ParseExact(data);
      OneMore(|procs|, hist, Ns(p, m, noMem, regErr));
      hist := hist + [Ns(p, m, noMem, regErr)];
      Announced(p, data, noMem, regErr);
      ExistsNow(this);
      return 0;
    }
  }

  lemma ExistsNow(b: Bus)
    ensures b.Reached() ==>
              forall q: nat, s: seq<byte>, dst: u32 :: q < |b.procs| ==>
                (Exists(b.procs[q], s, dst) <==> Said(b.hist, q, s, dst) && !Overruled(|b.procs|, b.hist, q, s, dst))
  {
    if b.Reached() {
      hide Exists, Said, Overruled;
      forall q: nat, s: seq<byte>, dst: u32 | q < |b.procs|
        ensures Exists(b.procs[q], s, dst) <==> Said(b.hist, q, s, dst) && !Overruled(|b.procs|, b.hist, q, s, dst)
      {
        RegistryExact(|b.procs|, b.hist, q, s, dst);
      }
    }
  }
}

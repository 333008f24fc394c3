/**
 * Channels and the name service: matching with wildcards, creating and destroying channels, and keeping
 * the channels of each processor in step with the announcements it makes. All processors register their
 * channels on one bus.
 */
module Channels {
  import opened Common
  import opened Wire
  import opened DeviceNames

  datatype Info = Info(name: NameArray, src: u32, dst: u32)

  /** A registered channel. `devName` was printed when it was registered; `src` may be bound later. */
  datatype Channel = Channel(name: NameArray, src: u32, dst: u32, devName: seq<byte>)

  /** The service name of a channel. */
  function NameOf(ch: Channel): seq<byte> {
    CStr(ch.name)
  }

  /** The channels of each processor, in the order they were registered. */
  type Procs = seq<seq<Channel>>

  const NS_MSG_SIZE := NAME_SIZE + 8

  datatype NsMsg = NsMsg(name: NameArray, addr: u32, destroy: bool)

  // ----- matching -----

  predicate Matches(info: Info, ch: Channel) {
    && (info.src == ADDR_ANY || info.src == ch.src)
    && (info.dst == ADDR_ANY || info.dst == ch.dst)
    && StrnEqual(info.name, ch.name, NAME_SIZE)
  }

  /** Matching compares the strings in the name arrays, whatever follows them. */
  lemma MatchesExact(info: Info, ch: Channel)
    ensures Matches(info, ch) <==>
            && (info.src == ADDR_ANY || info.src == ch.src)
            && (info.dst == ADDR_ANY || info.dst == ch.dst)
            && CStr(info.name) == NameOf(ch)
  {
    StrnEqualExact(info.name, ch.name);
  }

  /** The first child device that matches. */
  function FindDevice(chs: seq<Channel>, info: Info): (r: Option<nat>)
    ensures r.Some? ==> r.value < |chs| && Matches(info, chs[r.value]) &&
                        forall i: nat :: i < r.value ==> !Matches(info, chs[i])
    ensures r.None? ==> forall i: nat :: i < |chs| ==> !Matches(info, chs[i])
  {
    if chs == [] then None
    else if Matches(info, chs[0]) then Some(0)
    else
      var r := FindDevice(chs[1..], info);
      assert forall i: nat :: 1 <= i < |chs| ==> chs[i] == chs[1..][i - 1];
      if r.Some? then Some(r.value + 1) else None
  }

  // ----- registration -----

  /** The bus is one directory for the channels of all processors. */
  predicate NameTaken(bus: Procs, devName: seq<byte>) {
    exists q: nat, i: nat :: q < |bus| && i < |bus[q]| && bus[q][i].devName == devName
  }

  function NewChannel(info: Info): Channel {
    var name := Strncpy(info.name);
    Channel(name, info.src, info.dst, DeviceName(CStr(name), info.src, info.dst))
  }

  /** `rpmsg_create_channel`; registering fails on a name already on the bus, or for other reasons. */
  function CreateChannel(bus: Procs, p: nat, info: Info, noMem: bool, regErr: bool): (Procs, bool)
    requires p < |bus|
  {
    if FindDevice(bus[p], info).Some? || noMem then (bus, false)
    else if regErr || NameTaken(bus, NewChannel(info).devName) then (bus, false)
    else (bus[p := bus[p] + [NewChannel(info)]], true)
  }

  function Without(chs: seq<Channel>, r: nat): seq<Channel>
    requires r < |chs|
  {
    chs[..r] + chs[r + 1..]
  }

  function UnregisterDevice(bus: Procs, p: nat, info: Info): (Procs, int)
    requires p < |bus|
  {
    var r := FindDevice(bus[p], info);
    if r.None? then (bus, EINVAL) else (bus[p := Without(bus[p], r.value)], 0)
  }

  // ----- the name service -----

  /** An announcement as this driver sends it. */
  function EncodeNs(name: NameArray, addr: u32, flags: u32): (b: seq<byte>)
    ensures |b| == NS_MSG_SIZE
  {
    Strncpy(name) + Store(addr, 4) + Store(flags, 4)
  }

  /** The announcement in a message of the right length, with the name cut at its last byte. */
  function ParseNs(data: seq<byte>): NsMsg
    requires |data| == NS_MSG_SIZE
  {
    Widths();
    NsMsg(Strncpy(data[..NAME_SIZE - 1] + [0]), Load(data[NAME_SIZE..NAME_SIZE + 4]),
          Load(data[NAME_SIZE + 4..]) % 2 == 1)
  }

  /** The string that is left when the last byte of its array is overwritten. */
  lemma {:induction false} CutName(a: seq<byte>)
    requires a != []
    ensures CStr(a[..|a| - 1] + [0]) == if |CStr(a)| == |a| then CStr(a)[..|a| - 1] else CStr(a)
  {
    if |a| == 1 {
      assert a[..0] + [0] == [0] && CStr([0]) == [];
    } else if a[0] != 0 {
      CutName(a[1..]);
      assert (a[..|a| - 1] + [0])[1..] == a[1..][..|a[1..]| - 1] + [0];
      assert CStr(a) == [a[0]] + CStr(a[1..]);
    }
  }

  /** What one processor encodes the other parses, the name cut to 31 characters, the operation in the low bit. */
  lemma ParseEncode(name: NameArray, addr: u32, flags: u32)
    ensures var m, s := ParseNs(EncodeNs(name, addr, flags)), CStr(name);
            && CStr(m.name) == (if |s| == NAME_SIZE then s[..NAME_SIZE - 1] else s)
            && m.addr == addr && m.destroy == (flags % 2 == 1)
  {
    Widths();
    var data, a := EncodeNs(name, addr, flags), Strncpy(name);
    assert data[..NAME_SIZE] == a && data[..NAME_SIZE - 1] == a[..|a| - 1];
    assert data[NAME_SIZE..NAME_SIZE + 4] == Store(addr, 4) && data[NAME_SIZE + 4..] == Store(flags, 4);
    LoadStore(addr, 4);
    LoadStore(flags, 4);
    StrncpyKeeps(name);
    CutName(a);
    StrncpyKeeps(a[..|a| - 1] + [0]);
  }

  /** Any message of the right length, byte by byte. */
  lemma ParseExact(data: seq<byte>)
    requires |data| == 40
    ensures var m := ParseNs(data);
            && CStr(m.name) == CStr(data[..31]) && m.addr == U32At(data, 32) && m.destroy == (data[36] % 2 == 1)
  {
    StrncpyKeeps(data[..31] + [0]);
    CStrEnded(data[..31]);
    hide CStr, Strncpy, Pow256;
    LoadAt(data, 32);
    assert Load(data[36..]) == data[36] + 256 * Load(data[36..][1..]);
  }

  /** What happens to the channels: a processor's announcement, or a driver's probe binding a source address. */
  datatype Event = Ns(p: nat, m: NsMsg, noMem: bool, regErr: bool) | Probe(p: nat, i: nat, src: u32)

  function Apply(bus: Procs, e: Event): (bus': Procs)
    ensures |bus'| == |bus|
  {
    if e.p >= |bus| then bus
    else
      match e
      case Ns(p, m, noMem, regErr) =>
        var info := Info(m.name, ADDR_ANY, m.addr);
        if m.destroy then UnregisterDevice(bus, p, info).0 else CreateChannel(bus, p, info, noMem, regErr).0
      case Probe(p, i, src) => if i < |bus[p]| then bus[p := bus[p][i := bus[p][i].(src := src)]] else bus
  }

  /** The channels of `n` processors after a history of events, oldest first. */
  function After(n: nat, hist: seq<Event>): (bus: Procs)
    ensures |bus| == n
  {
    if hist == [] then seq(n, _ => []) else Apply(After(n, hist[..|hist| - 1]), hist[|hist| - 1])
  }

  // ----- what every history keeps -----

  /** Device names were printed from the name, the unbound source, and the destination. */
  ghost predicate NamesPrinted(bus: Procs) {
    forall q: nat, i: nat :: q < |bus| && i < |bus[q]| ==>
      bus[q][i].devName == DeviceName(NameOf(bus[q][i]), ADDR_ANY, bus[q][i].dst)
  }

  /** The same destination and the same name, as far as a device name can tell. */
  predicate SameDevice(a: Channel, b: Channel) {
    a.dst == b.dst && Rewrite(NameOf(a)) == Rewrite(NameOf(b))
  }

  /** No two channels, of one processor or of two, look alike to the bus. */
  ghost predicate Unique(bus: Procs) {
    forall q: nat, i: nat, r: nat, j: nat ::
      q < |bus| && i < |bus[q]| && r < |bus| && j < |bus[r]| && SameDevice(bus[q][i], bus[r][j]) ==> q == r && i == j
  }

  /** A channel with a wildcard destination is the first of its name at its processor. */
  ghost predicate AnyFirst(chs: seq<Channel>) {
    forall i: nat, j: nat :: i < j < |chs| && NameOf(chs[i]) == NameOf(chs[j]) ==> chs[j].dst != ADDR_ANY
  }

  ghost predicate Inv(bus: Procs) {
    NamesPrinted(bus) && Unique(bus) && forall q: nat :: q < |bus| ==> AnyFirst(bus[q])
  }

  /** A channel with this destination and this name after rewriting. */
  predicate LooksLike(ch: Channel, name: seq<byte>, dst: u32) {
    ch.dst == dst && Rewrite(NameOf(ch)) == Rewrite(name)
  }

  /** Some channel of the bus, of any processor, is one. */
  ghost predicate Clash(bus: Procs, name: seq<byte>, dst: u32) {
    exists q: nat, i: nat :: q < |bus| && i < |bus[q]| && LooksLike(bus[q][i], name, dst)
  }

  /** A device name is taken exactly when there is such a channel. */
  lemma TakenExact(bus: Procs, name: seq<byte>, dst: u32)
    requires NamesPrinted(bus)
    ensures NameTaken(bus, DeviceName(name, ADDR_ANY, dst)) <==> Clash(bus, name, dst)
  {
    hide DeviceName;
    forall q: nat, i: nat | q < |bus| && i < |bus[q]|
      ensures bus[q][i].devName == DeviceName(name, ADDR_ANY, dst) <==>
              LooksLike(bus[q][i], name, dst)
    {
      DeviceNameExact(NameOf(bus[q][i]), ADDR_ANY, bus[q][i].dst, name, ADDR_ANY, dst);
    }
  }

  lemma NewName(info: Info)
    ensures NameOf(NewChannel(info)) == CStr(info.name)
  {
    StrncpyKeeps(info.name);
  }
}

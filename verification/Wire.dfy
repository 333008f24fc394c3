/**
 * The rpmsg frame: a packed 16-byte header followed by the payload, the checks a sender makes before
 * building one, and the checks and dispatch a receiver makes when it is given one.
 */
module Wire {
  import opened Common

  const HDR_SIZE := 16
  const BUF_SIZE := 512 // MAX_RPMSG_BUF_SIZE, the size of every buffer

  datatype Hdr = Hdr(src: u32, dst: u32, reserved: u32, len: u16, flags: u16)

  /** One message a sender was asked to transmit. */
  datatype Req = Req(src: u32, dst: u32, data: seq<byte>)

  // ----- integers in memory (little-endian host) -----

  function Pow256(n: nat): (p: nat)
    ensures p > 0
  {
    if n == 0 then 1 else 256 * Pow256(n - 1)
  }

  function Store(x: nat, n: nat): (b: seq<byte>)
    ensures |b| == n
  {
    if n == 0 then [] else [x % 256] + Store(x / 256, n - 1)
  }

  function Load(b: seq<byte>): (x: nat)
    ensures x < Pow256(|b|)
  {
    if b == [] then 0 else b[0] + 256 * Load(b[1..])
  }

  lemma {:induction false} LoadStore(x: nat, n: nat)
    requires x < Pow256(n)
    ensures Load(Store(x, n)) == x
  {
    if n > 0 {
      LoadStore(x / 256, n - 1);
      assert Store(x, n)[1..] == Store(x / 256, n - 1);
    }
  }

  lemma {:induction false} StoreLoad(b: seq<byte>)
    ensures Store(Load(b), |b|) == b
  {
    if b != [] {
      StoreLoad(b[1..]);
      assert Load(b) % 256 == b[0] && Load(b) / 256 == Load(b[1..]);
    }
  }

  lemma Widths()
    ensures Pow256(4) == 0x1_0000_0000 && Pow256(2) == 0x1_0000
  {
    assert Pow256(1) == 256;
    assert Pow256(2) == 0x1_0000;
    assert Pow256(3) == 0x100_0000;
  }

  // ----- the packed header -----

  function Encode(h: Hdr): (b: seq<byte>)
    ensures |b| == HDR_SIZE
  {
    Store(h.src, 4) + Store(h.dst, 4) + Store(h.reserved, 4) + Store(h.len, 2) + Store(h.flags, 2)
  }

  function Decode(b: seq<byte>): Hdr
    requires |b| == HDR_SIZE
  {
    Widths();
    Hdr(Load(b[0..4]), Load(b[4..8]), Load(b[8..12]), Load(b[12..14]), Load(b[14..16]))
  }

  lemma DecodeEncode(h: Hdr)
    ensures Decode(Encode(h)) == h
  {
    Widths();
    var b := Encode(h);
    assert b[0..4] == Store(h.src, 4);
    assert b[4..8] == Store(h.dst, 4);
    assert b[8..12] == Store(h.reserved, 4);
    assert b[12..14] == Store(h.len, 2);
    assert b[14..16] == Store(h.flags, 2);
    LoadStore(h.src, 4);
    LoadStore(h.dst, 4);
    LoadStore(h.reserved, 4);
    LoadStore(h.len, 2);
    LoadStore(h.flags, 2);
  }

  lemma EncodeDecode(b: seq<byte>)
    requires |b| == HDR_SIZE
    ensures Encode(Decode(b)) == b
  {
    StoreLoad(b[0..4]);
    StoreLoad(b[4..8]);
    StoreLoad(b[8..12]);
    StoreLoad(b[12..14]);
    StoreLoad(b[14..16]);
    assert b == b[0..4] + b[4..8] + b[8..12] + b[12..14] + b[14..16];
  }

  // ----- what is where, byte by byte -----

  /** The 32-bit and the 16-bit value at an offset, least significant byte first. */
  function U32At(b: seq<byte>, i: nat): u32
    requires i + 4 <= |b|
  {
    var b0: int, b1: int, b2: int, b3: int := b[i], b[i + 1], b[i + 2], b[i + 3];
    b0 + 0x100 * b1 + 0x1_0000 * b2 + 0x100_0000 * b3
  }

  function U16At(b: seq<byte>, i: nat): u16
    requires i + 2 <= |b|
  {
    var b0: int, b1: int := b[i], b[i + 1];
    b0 + 0x100 * b1
  }

  lemma LoadAt(b: seq<byte>, i: nat)
    ensures i + 4 <= |b| ==> Load(b[i..i + 4]) == U32At(b, i)
    ensures i + 2 <= |b| ==> Load(b[i..i + 2]) == U16At(b, i)
  {
    if i + 4 <= |b| {
      var c := b[i..i + 4];
      assert Load(c) == c[0] + 256 * Load(c[1..]) && c[1..][0] == c[1];
      assert Load(c[1..]) == c[1] + 256 * Load(c[2..]) && c[1..][1..] == c[2..];
      assert Load(c[2..]) == c[2] + 256 * Load(c[3..]) && c[2..][1..] == c[3..];
      assert Load(c[3..]) == c[3] && c[3..][1..] == [];
    }
    if i + 2 <= |b| {
      var c := b[i..i + 2];
      assert Load(c) == c[0] + 256 * Load(c[1..]);
      assert Load(c[1..]) == c[1] && c[1..][1..] == [];
    }
  }

  /** The fields of a header by their offsets: 0, 4, 8, 12 and 14. */
  lemma DecodeLayout(b: seq<byte>)
    requires |b| == HDR_SIZE
    ensures Decode(b) == Hdr(U32At(b, 0), U32At(b, 4), U32At(b, 8), U16At(b, 12), U16At(b, 14))
  {
    LoadAt(b, 0);
    LoadAt(b, 4);
    LoadAt(b, 8);
    LoadAt(b, 12);
    LoadAt(b, 14);
  }

  /** The header at the start of a buffer. */
  lemma HeaderAt(buf: seq<byte>)
    requires |buf| == BUF_SIZE
    ensures Decode(buf[..HDR_SIZE]) == Hdr(U32At(buf, 0), U32At(buf, 4), U32At(buf, 8), U16At(buf, 12), U16At(buf, 14))
  {
    var h := buf[..HDR_SIZE];
    DecodeLayout(h);
    assert U32At(h, 0) == U32At(buf, 0) && U32At(h, 4) == U32At(buf, 4) && U32At(h, 8) == U32At(buf, 8);
    assert U16At(h, 12) == U16At(buf, 12) && U16At(h, 14) == U16At(buf, 14);
  }

  lemma EncodeLayout(h: Hdr)
    ensures var b := Encode(h);
            && U32At(b, 0) == h.src && U32At(b, 4) == h.dst && U32At(b, 8) == h.reserved
            && U16At(b, 12) == h.len && U16At(b, 14) == h.flags
  {
    DecodeEncode(h);
    DecodeLayout(Encode(h));
  }

  /** A header in memory. */
  lemma HeaderExample()
    ensures Encode(Hdr(0x01020304, 0x05060708, 0, 0x0A0B, 0)) == [4, 3, 2, 1, 8, 7, 6, 5, 0, 0, 0, 0, 0x0B, 0x0A, 0, 0]
  {
    var b: seq<byte> := [4, 3, 2, 1, 8, 7, 6, 5, 0, 0, 0, 0, 0x0B, 0x0A, 0, 0];
    DecodeLayout(b);
    EncodeDecode(b);
  }

  // ----- sending -----

  /** The argument checks of a send: 0, or the error returned before any buffer is taken. */
  function SendCheck(src: u32, dst: u32, len: i32): int {
    if src == ADDR_ANY || dst == ADDR_ANY then EINVAL
    else if ToU64(len) > BUF_SIZE - HDR_SIZE then EMSGSIZE
    else 0
  }

  /** A message that passed the checks. */
  predicate Sendable(r: Req) {
    r.src != ADDR_ANY && r.dst != ADDR_ANY && |r.data| <= BUF_SIZE - HDR_SIZE
  }

  /** The header a sender writes; the length is stored in 16 bits. */
  function HeaderOf(r: Req): Hdr {
    Hdr(r.src, r.dst, 0, |r.data| % 0x1_0000, 0)
  }

  function Frame(r: Req): (f: seq<byte>)
    ensures |f| == HDR_SIZE + |r.data|
  {
    Encode(HeaderOf(r)) + r.data
  }

  /** The checks, by their results: a wildcard address first, then a length that is negative or above 496. */
  lemma SendCheckExact(src: u32, dst: u32, len: i32)
    ensures SendCheck(src, dst, len) ==
            if src == 0xFFFF_FFFF || dst == 0xFFFF_FFFF then -22 else if 0 <= len <= 496 then 0 else -90
  {
  }

  /** What passes the checks is what the frame theorems speak about. */
  lemma SendableExact(r: Req)
    requires |r.data| < 0x8000_0000
    ensures Sendable(r) <==> SendCheck(r.src, r.dst, |r.data|) == 0
  {
    SendCheckExact(r.src, r.dst, |r.data|);
  }

  /** The bytes of a frame: source, destination, zeros, length, zeros, payload. */
  lemma FrameLayout(r: Req)
    requires Sendable(r)
    ensures var f := Frame(r);
            && |f| == 16 + |r.data| && f[16..] == r.data
            && U32At(f, 0) == r.src && U32At(f, 4) == r.dst && U32At(f, 8) == 0
            && U16At(f, 12) == |r.data| && U16At(f, 14) == 0
  {
    EncodeLayout(HeaderOf(r));
    var f, e := Frame(r), Encode(HeaderOf(r));
    assert forall i :: 0 <= i < 16 ==> f[i] == e[i];
  }

  // ----- receiving -----

  /** What an address is bound to: an endpoint and whether its callback is still set. */
  datatype Binding = Binding(ept: nat, cb: bool)

  /** One callback invocation: `data` starts at the payload and runs to the end of the buffer. */
  datatype Call = Call(ept: nat, data: seq<byte>, len: u16, src: u32)

  /** The bytes the callback was told to look at. */
  function Payload(c: Call): seq<byte>
    requires c.len <= |c.data|
  {
    c.data[..c.len]
  }

  /**
   * The length test on an inbound message. The subtraction is unsigned, so a reported length
   * below 16 wraps to a huge bound.
   */
  predicate Accepts(len: u32, msgLen: u16) {
    !(len > BUF_SIZE || msgLen > (len - HDR_SIZE) % 0x1_0000_0000_0000_0000)
  }

  /** Look the destination up and call its callback, if there is one. */
  function Dispatch(bound: map<nat, Binding>, buf: seq<byte>): (calls: seq<Call>)
    requires |buf| == BUF_SIZE
  {
    var h := Decode(buf[..HDR_SIZE]);
    if h.dst in bound && bound[h.dst].cb then
      [Call(bound[h.dst].ept, buf[HDR_SIZE..], h.len, h.src)]
    else
      []
  }

  predicate AcceptsBuf(buf: seq<byte>, len: u32)
    requires |buf| == BUF_SIZE
  {
    Accepts(len, Decode(buf[..HDR_SIZE]).len)
  }

  /** The calls made for one received buffer: none when the message is rejected. */
  function Receive(bound: map<nat, Binding>, buf: seq<byte>, len: u32): seq<Call>
    requires |buf| == BUF_SIZE
  {
    if AcceptsBuf(buf, len) then Dispatch(bound, buf) else []
  }

  /** The receive check, by the reported length and the length in the header: a report below 16 always passes. */
  lemma AcceptsExact(len: u32, msgLen: u16)
    ensures Accepts(len, msgLen) <==> len < 16 || (len <= 512 && msgLen <= len - 16)
  {
  }

  /**
   * The payload of an accepted message lies inside the reported length, and inside the buffer, when that length
   * covers the header. Shorter reports pass the test too, and none of them covers its payload.
   */
  lemma AcceptedPayloadInBounds(len: u32, msgLen: u16)
    requires Accepts(len, msgLen)
    ensures HDR_SIZE + msgLen <= len <==> len >= HDR_SIZE
    ensures len >= 16 ==> 16 + msgLen <= 512
  {
    AcceptsExact(len, msgLen);
  }

  /** Concrete report that passes the test although its payload is outside the buffer. */
  lemma ShortReportAccepted()
    ensures Accepts(8, 0xFFFF) && !(HDR_SIZE + 0xFFFF <= BUF_SIZE)
  {
  }

  /**
   * Any buffer with any report: the lengths, the destination and the source are read at their offsets, and the
   * endpoint bound to the destination is called once, unless the message is rejected or there is nobody to call.
   */
  lemma ReceiveExact(bound: map<nat, Binding>, buf: seq<byte>, len: u32)
    requires |buf| == 512
    ensures AcceptsBuf(buf, len) <==> len < 16 || (len <= 512 && U16At(buf, 12) <= len - 16)
    ensures var dst := U32At(buf, 4);
            Receive(bound, buf, len) ==
            if (len < 16 || (len <= 512 && U16At(buf, 12) <= len - 16)) && dst in bound && bound[dst].cb then
              [Call(bound[dst].ept, buf[16..], U16At(buf, 12), U32At(buf, 0))]
            else
              []
  {
    HeaderAt(buf);
    AcceptsExact(len, Decode(buf[..HDR_SIZE]).len);
  }

  /**
   * Round trip: a buffer that starts with the frame of an accepted message, reported with the frame's
   * length, reaches the endpoint bound to the destination with the same bytes, length and source,
   * or nobody when the address is unbound or its callback cleared.
   */
  lemma RoundTrip(bound: map<nat, Binding>, r: Req, buf: seq<byte>)
    requires Sendable(r)
    requires |buf| == BUF_SIZE && Frame(r) <= buf
    ensures AcceptsBuf(buf, |Frame(r)|)
    ensures var calls := Receive(bound, buf, |Frame(r)|);
            if r.dst in bound && bound[r.dst].cb then
              |calls| == 1 && calls[0].ept == bound[r.dst].ept && calls[0].src == r.src &&
              calls[0].len == |r.data| && Payload(calls[0]) == r.data
            else
              calls == []
  {
    assert buf[..HDR_SIZE] == Encode(HeaderOf(r));
    DecodeEncode(HeaderOf(r));
    assert Frame(r)[HDR_SIZE..] == r.data;
    assert buf[HDR_SIZE..][..|r.data|] == r.data;
  }
}

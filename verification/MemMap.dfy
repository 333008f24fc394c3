/**
 * The physical-memory character device: transfers are cut at page boundaries, each page is mapped,
 * copied and unmapped, and the whole must equal one flat copy.
 */
module MemMap {
  import opened Common

  const PAGE_SIZE := 4096
  const MAX_ERRNO := 4095
  const EFBIG := -27
  const EOVERFLOW := -75

  const SEEK_SET := 0
  const SEEK_CUR := 1

  /** A file offset: signed, 64 bits. */
  type loff = x: int | -0x8000_0000_0000_0000 <= x < 0x8000_0000_0000_0000

  /** The low 64 bits, read as a signed value. */
  function WrapLoff(x: int): (r: loff)
    ensures (x - r) % 0x1_0000_0000_0000_0000 == 0
  {
    var u := x % 0x1_0000_0000_0000_0000;
    if u >= 0x8000_0000_0000_0000 then u - 0x1_0000_0000_0000_0000 else u
  }

  // ----- pages -----

  /** The part of a transfer of `size` bytes at `start` that lies in the page of `start`. */
  function SizeInsidePage(start: nat, size: nat): nat {
    var sz := PAGE_SIZE - start % PAGE_SIZE;
    if sz < size then sz else size
  }

  function PageBase(a: nat): nat {
    a - a % PAGE_SIZE
  }

  /** A chunk makes progress, never leaves its page, and ends at a page boundary unless it is the last. */
  lemma ChunkInsidePage(start: nat, size: nat)
    requires size > 0
    ensures var sz := SizeInsidePage(start, size);
            && 0 < sz <= size
            && PageBase(start) == PageBase(start + sz - 1)
            && (sz < size ==> (start + sz) % PAGE_SIZE == 0)
  {
  }

  /** Masking a mapped pointer gives back the address the page was mapped at. */
  lemma UnmapsWhatWasMapped(vaddr: nat, phys: nat)
    requires vaddr % PAGE_SIZE == 0
    ensures PageBase(vaddr + phys % PAGE_SIZE) == vaddr
  {
  }

  // ----- physical addresses -----

  /** Size of the physical address space: `phys_addr_t` has 64 or 32 bits. */
  function Space(wide: bool): nat {
    if wide then 0x1_0000_0000_0000_0000 else 0x1_0000_0000
  }

  function Phys(x: int, wide: bool): (p: nat)
    ensures p < Space(wide)
  {
    if wide then x % 0x1_0000_0000_0000_0000 else x % 0x1_0000_0000
  }

  /** `p == *ppos` after `p = *ppos`: compared unsigned when both have 64 bits, as signed values otherwise. */
  predicate Representable(pos: loff, wide: bool) {
    if wide then Phys(pos, wide) == ToU64(pos) else Phys(pos, wide) == pos
  }

  /** With 64-bit addresses every offset is a position; with 32-bit ones only those below 4 GiB. */
  lemma RepresentableExact(pos: loff, wide: bool)
    ensures Representable(pos, wide) <==> wide || 0 <= pos < 0x1_0000_0000
  {
  }

  lemma PhysAdd(x: int, y: nat, wide: bool)
    requires Phys(x, wide) + y < Space(wide)
    ensures Phys(x + y, wide) == Phys(x, wide) + y
  {
  }

  lemma PhysTwice(x: int, y: int, wide: bool)
    ensures Phys(Phys(x, wide) + y, wide) == Phys(x + y, wide)
  {
  }

  /** A chunk never wraps around the address space. */
  lemma ChunkNoWrap(p: nat, size: nat, wide: bool)
    requires p < Space(wide)
    ensures p + SizeInsidePage(p, size) <= Space(wide)
  {
  }

  // ----- the flat meaning -----

  /** The bytes at p, p + 1, ... of an address space that wraps around. */
  function FlatRead(mem: seq<byte>, wide: bool, p: int, n: nat): (r: seq<byte>)
    requires |mem| == Space(wide)
    ensures |r| == n
  {
    seq(n, i requires 0 <= i < n => mem[Phys(p + i, wide)])
  }

  /** Memory after the bytes are stored one after the other at p, p + 1, ... */
  function FlatWrite(mem: seq<byte>, wide: bool, p: int, data: seq<byte>): (r: seq<byte>)
    requires |mem| == Space(wide)
    ensures |r| == |mem|
  {
    if data == [] then mem
    else FlatWrite(mem, wide, p, data[..|data| - 1])[Phys(p + |data| - 1, wide) := data[|data| - 1]]
  }

  lemma ReadMore(mem: seq<byte>, wide: bool, p: int, n: nat, m: nat)
    requires |mem| == Space(wide) && Phys(p + n, wide) + m <= Space(wide)
    ensures var q := Phys(p + n, wide);
            FlatRead(mem, wide, p, n + m) == FlatRead(mem, wide, p, n) + mem[q..q + m]
  {
    var q := Phys(p + n, wide);
    var longer, shorter := FlatRead(mem, wide, p, n + m), FlatRead(mem, wide, p, n);
    forall i: nat | i < n + m ensures longer[i] == (shorter + mem[q..q + m])[i] {
      if i >= n {
        PhysAdd(p + n, i - n, wide);
        assert p + n + (i - n) == p + i;
      }
    }
  }

  /** Where nothing wraps, flat bytes are one stretch of memory. */
  lemma ReadChunk(mem: seq<byte>, wide: bool, p: int, n: nat)
    requires |mem| == Space(wide) && Phys(p, wide) + n <= Space(wide)
    ensures FlatRead(mem, wide, p, n) == mem[Phys(p, wide)..Phys(p, wide) + n]
  {
    ReadMore(mem, wide, p, 0, n);
    assert FlatRead(mem, wide, p, 0) == [];
  }

  lemma {:induction false} WriteAppend(mem: seq<byte>, wide: bool, p: int, a: seq<byte>, b: seq<byte>)
    requires |mem| == Space(wide)
    ensures FlatWrite(mem, wide, p, a + b) == FlatWrite(FlatWrite(mem, wide, p, a), wide, p + |a|, b)
    decreases |b|
  {
    if b == [] {
      assert a + b == a;
    } else {
      assert (a + b)[..|a + b| - 1] == a + b[..|b| - 1];
      WriteAppend(mem, wide, p, a, b[..|b| - 1]);
    }
  }

  /** Bytes stored without wrapping replace one stretch of memory. */
  lemma {:induction false} WriteChunk(mem: seq<byte>, wide: bool, p: int, data: seq<byte>)
    requires |mem| == Space(wide) && Phys(p, wide) + |data| <= Space(wide)
    ensures var q := Phys(p, wide);
            FlatWrite(mem, wide, p, data) == mem[..q] + data + mem[q + |data|..]
    decreases |data|
  {
    var q := Phys(p, wide);
    if data == [] {
      assert mem == mem[..q] + data + mem[q..];
    } else {
      var front, last := data[..|data| - 1], data[|data| - 1];
      WriteChunk(mem, wide, p, front);
      PhysAdd(p, |front|, wide);
      assert data == front + [last];
      assert (mem[..q] + front + mem[q + |front|..])[q + |front| := last] == mem[..q] + data + mem[q + |data|..];
    }
  }

  /** Fewer bytes than the space holds never land on one address twice. */
  lemma PhysApart(p: int, i: nat, j: nat, wide: bool)
    requires i < j < Space(wide)
    ensures Phys(p + i, wide) != Phys(p + j, wide)
  {
    var q := Phys(p + i, wide);
    if q + (j - i) < Space(wide) {
      PhysAdd(p + i, j - i, wide);
    } else {
      assert p + j == (p + i) + (j - i);
      if wide {
        assert (p + j) % 0x1_0000_0000_0000_0000 == q + (j - i) - 0x1_0000_0000_0000_0000;
      } else {
        assert (p + j) % 0x1_0000_0000 == q + (j - i) - 0x1_0000_0000;
      }
    }
  }

  lemma {:induction false} WrittenByte(mem: seq<byte>, wide: bool, p: int, data: seq<byte>, i: nat)
    requires |mem| == Space(wide) && i < |data| <= Space(wide)
    ensures FlatWrite(mem, wide, p, data)[Phys(p + i, wide)] == data[i]
    decreases |data|
  {
    hide Phys, Space;
    if i < |data| - 1 {
      var front := data[..|data| - 1];
      WrittenByte(mem, wide, p, front, i);
      PhysApart(p, i, |data| - 1, wide);
      assert p + (|data| - 1) == p + |data| - 1;
      assert front[i] == data[i];
    }
  }

  /** What was written at a position is what is read there. */
  lemma FlatRoundTrip(mem: seq<byte>, wide: bool, p: int, data: seq<byte>)
    requires |mem| == Space(wide) && |data| <= Space(wide)
    ensures FlatRead(FlatWrite(mem, wide, p, data), wide, p, |data|) == data
  {
    forall i: nat | i < |data| ensures FlatRead(FlatWrite(mem, wide, p, data), wide, p, |data|)[i] == data[i] {
      WrittenByte(mem, wide, p, data, i);
    }
  }

  // ----- faults -----

  /**
   * What the chunk that starts at a given offset of the user's buffer meets: the virtual page it is mapped
   * at, if any; whether the kernel can read it; how many bytes cannot be copied from or to the user.
   */
  datatype Env = Env(mapping: nat -> Option<nat>, probeFails: nat -> bool, uncopied: nat -> nat, pads: bool)

  /** Plain memory and a good user buffer. */
  ghost predicate FaultFree(env: Env) {
    forall off :: env.mapping(off).Some? && !env.probeFails(off) && env.uncopied(off) == 0
  }

  lemma NothingRead(mem: seq<byte>, wide: bool, pos: int)
    requires |mem| == Space(wide)
    ensures FlatRead(mem, wide, pos, 0) == []
  {
  }

  /** Bytes of a chunk the user copy could not move. */
  function Left(env: Env, off: nat, sz: nat): nat {
    if env.uncopied(off) < sz then env.uncopied(off) else sz
  }

  lemma LeftBound(env: Env, off: nat, sz: nat)
    ensures Left(env, off, sz) <= sz && (sz > 0 && Left(env, off, sz) == 0 <==> sz > 0 && env.uncopied(off) == 0)
  {
  }

  /** Every chunk of a read of `n` bytes from `off` on can be mapped, probed and copied out. */
  predicate ReadsClean(env: Env, p: int, wide: bool, off: nat, n: nat)
    decreases n
  {
    n == 0 ||
    var sz := SizeInsidePage(Phys(p, wide), n);
    env.mapping(off).Some? && !env.probeFails(off) && Left(env, off, sz) == 0 &&
    ReadsClean(env, p + sz, wide, off + sz, n - sz)
  }

  /** How many bytes a write of `n` bytes from `off` on gets to before the first fault. */
  function Reach(env: Env, p: int, wide: bool, off: nat, n: nat): (r: nat)
    ensures r <= n
    decreases n
  {
    if n == 0 || env.mapping(off).None? then 0
    else
      var sz := SizeInsidePage(Phys(p, wide), n);
      if Left(env, off, sz) > 0 then sz - Left(env, off, sz)
      else sz + Reach(env, p + sz, wide, off + sz, n - sz)
  }

  /** Zero bytes stored after them: a partial copy from the user pads the rest of the chunk. */
  function Padding(env: Env, p: int, wide: bool, off: nat, n: nat): (r: nat)
    ensures Reach(env, p, wide, off, n) + r <= n
    decreases n
  {
    if n == 0 || env.mapping(off).None? then 0
    else
      var sz := SizeInsidePage(Phys(p, wide), n);
      if Left(env, off, sz) > 0 then (if env.pads then Left(env, off, sz) else 0)
      else Padding(env, p + sz, wide, off + sz, n - sz)
  }

  // ----- the chunks of a transfer, told from the addresses alone -----

  /** In a transfer from `off` on, a chunk starts at offset `k`: the first byte, or the first one of a page. */
  predicate Starts(pos: int, off: nat, k: nat) {
    k == off || (pos + k) % 4096 == 0
  }

  lemma PhysInPage(x: int, wide: bool)
    ensures Phys(x, wide) % 4096 == x % 4096
  {
  }

  lemma InsidePage(a: int, d: nat)
    requires 0 < d <= 4096 - a % 4096
    ensures (a + d) % 4096 == 0 <==> d == 4096 - a % 4096
  {
    assert (a + d) % 4096 == if d == 4096 - a % 4096 then 0 else a % 4096 + d;
  }

  /** The chunk at `off` ends where the next one starts. */
  lemma ChunkEnds(pos: int, wide: bool, off: nat, n: nat)
    requires n > 0
    ensures var sz := SizeInsidePage(Phys(pos + off, wide), n);
            && 0 < sz <= n && sz == (if 4096 - (pos + off) % 4096 < n then 4096 - (pos + off) % 4096 else n)
            && pos + off + sz == pos + (off + sz)
            && (forall k: nat :: off < k < off + sz ==> !Starts(pos, off, k))
            && (forall k: nat :: off + sz <= k < off + n ==> (Starts(pos, off, k) <==> Starts(pos, off + sz, k)))
  {
    PhysInPage(pos + off, wide);
    hide Phys;
    var sz := SizeInsidePage(Phys(pos + off, wide), n);
    InsidePage(pos + off, sz);
    assert pos + off + sz == pos + (off + sz);
    forall k: nat | off < k < off + sz ensures !Starts(pos, off, k) {
      InsidePage(pos + off, k - off);
      assert pos + off + (k - off) == pos + k;
    }
  }

  /** The page of the chunk can be mapped and read, and the user's buffer takes all of it. */
  predicate ReadsAt(env: Env, k: nat) {
    env.mapping(k).Some? && !env.probeFails(k) && env.uncopied(k) == 0
  }

  ghost predicate AllRead(env: Env, pos: int, off: nat, n: nat) {
    forall k: nat :: off <= k < off + n && Starts(pos, off, k) ==> ReadsAt(env, k)
  }

  lemma AllReadGoesOn(env: Env, pos: int, wide: bool, off: nat, n: nat)
    requires n > 0
    ensures var sz := SizeInsidePage(Phys(pos + off, wide), n);
            0 < sz <= n && (AllRead(env, pos, off, n) <==> ReadsAt(env, off) && AllRead(env, pos, off + sz, n - sz))
  {
    ChunkEnds(pos, wide, off, n);
    assert Starts(pos, off, off);
    hide Phys, SizeInsidePage, Starts, ReadsAt;
  }

  /** A read meets no fault exactly when the chunk at each chunk start is good. */
  lemma {:induction false} ReadsCleanExact(env: Env, pos: int, wide: bool, off: nat, n: nat)
    ensures ReadsClean(env, pos + off, wide, off, n) <==>
            forall k: nat :: off <= k < off + n && Starts(pos, off, k) ==> ReadsAt(env, k)
    decreases n
  {
    assert AllRead(env, pos, off, n) <==>
           forall k: nat :: off <= k < off + n && Starts(pos, off, k) ==> ReadsAt(env, k);
    if n > 0 {
      var sz := SizeInsidePage(Phys(pos + off, wide), n);
      AllReadGoesOn(env, pos, wide, off, n);
      ReadsCleanExact(env, pos, wide, off + sz, n - sz);
      LeftBound(env, off, sz);
      assert pos + off + sz == pos + (off + sz);
      hide Phys, SizeInsidePage, Left, Starts;
    }
  }

  /** The page of the chunk can be mapped, and all of it copied from the user. */
  predicate StoresAt(env: Env, k: nat) {
    env.mapping(k).Some? && env.uncopied(k) == 0
  }

  /** Every chunk that starts before `k` can be stored. */
  ghost predicate StoredTo(env: Env, pos: int, off: nat, k: nat) {
    forall j: nat :: off <= j < k && Starts(pos, off, j) ==> StoresAt(env, j)
  }

  lemma StoredGoesOn(env: Env, pos: int, wide: bool, off: nat, n: nat, k: nat)
    requires off < k <= off + n && StoredTo(env, pos, off, k) && (k == off + n || Starts(pos, off, k))
    ensures var sz := SizeInsidePage(Phys(pos + off, wide), n);
            && 0 < sz <= n && off + sz <= k && Left(env, off, sz) == 0 && env.mapping(off).Some?
            && StoredTo(env, pos, off + sz, k) && (k == off + n || Starts(pos, off + sz, k))
            && pos + off + sz == pos + (off + sz)
  {
    ChunkEnds(pos, wide, off, n);
    assert Starts(pos, off, off) && StoresAt(env, off);
    hide Phys, SizeInsidePage, Starts;
  }

  /** Without a fault a write reaches its end. */
  lemma {:induction false} ReachesEnd(env: Env, pos: int, wide: bool, off: nat, n: nat)
    requires StoredTo(env, pos, off, off + n)
    ensures Reach(env, pos + off, wide, off, n) == n && Padding(env, pos + off, wide, off, n) == 0
    decreases n
  {
    hide StoredTo, Phys, SizeInsidePage, Left;
    if n > 0 {
      var sz := SizeInsidePage(Phys(pos + off, wide), n);
      StoredGoesOn(env, pos, wide, off, n, off + n);
      ReachesEnd(env, pos, wide, off + sz, n - sz);
    }
  }

  /** A chunk of which the user copy moves only a part, or whose page cannot be mapped. */
  lemma FaultyChunk(env: Env, pos: int, wide: bool, off: nat, n: nat)
    requires n > 0 && !StoresAt(env, off)
    ensures var sz := if 4096 - (pos + off) % 4096 < n then 4096 - (pos + off) % 4096 else n;
            var missed := if env.uncopied(off) < sz then env.uncopied(off) else sz;
            if env.mapping(off).None? then
              Reach(env, pos + off, wide, off, n) == 0 && Padding(env, pos + off, wide, off, n) == 0
            else
              && Reach(env, pos + off, wide, off, n) == sz - missed
              && Padding(env, pos + off, wide, off, n) == if env.pads then missed else 0
  {
    ChunkEnds(pos, wide, off, n);
    hide Phys, SizeInsidePage;
  }

  /**
   * A write reaches the chunk of the first fault, at offset `k`, and, if its page can be mapped, the bytes of it that
   * can be copied; the rest of that chunk, no further than its page, is padded.
   */
  lemma {:induction false} ReachExact(env: Env, pos: int, wide: bool, off: nat, n: nat, k: nat)
    requires off <= k < off + n && Starts(pos, off, k) && !StoresAt(env, k) && StoredTo(env, pos, off, k)
    ensures var left := off + n - k;
            var sz := if 4096 - (pos + k) % 4096 < left then 4096 - (pos + k) % 4096 else left;
            var missed := if env.uncopied(k) < sz then env.uncopied(k) else sz;
            if env.mapping(k).None? then
              Reach(env, pos + off, wide, off, n) == k - off && Padding(env, pos + off, wide, off, n) == 0
            else
              && Reach(env, pos + off, wide, off, n) == k - off + sz - missed
              && Padding(env, pos + off, wide, off, n) == if env.pads then missed else 0
    decreases n
  {
    hide StoredTo, Phys, SizeInsidePage, Left, Starts, StoresAt;
    if k == off {
      FaultyChunk(env, pos, wide, off, n);
    } else {
      var sz := SizeInsidePage(Phys(pos + off, wide), n);
      StoredGoesOn(env, pos, wide, off, n, k);
      ReachExact(env, pos, wide, off + sz, n - sz, k);
    }
  }

  lemma {:induction false} FaultFreeReaches(env: Env, p: int, wide: bool, off: nat, n: nat)
    requires FaultFree(env)
    ensures ReadsClean(env, p, wide, off, n)
    ensures Reach(env, p, wide, off, n) == n && Padding(env, p, wide, off, n) == 0
    decreases n
  {
    hide Phys, SizeInsidePage, Space, PageBase;
    if n > 0 {
      var sz := SizeInsidePage(Phys(p, wide), n);
      ChunkInsidePage(Phys(p, wide), n);
      assert env.mapping(off).Some?;
      FaultFreeReaches(env, p + sz, wide, off + sz, n - sz);
    }
  }

  /** Where one turn of either loop takes it. */
  lemma Turn(wide: bool, pos: int, off: nat, left: nat)
    requires left > 0
    ensures var p := Phys(pos + off, wide);
            var sz := SizeInsidePage(p, left);
            && 0 < sz <= left && sz <= PAGE_SIZE - p % PAGE_SIZE && p < p + sz <= Space(wide)
            && Phys(p + sz, wide) == Phys(pos + (off + sz), wide)
  {
    var p := Phys(pos + off, wide);
    var sz := SizeInsidePage(p, left);
    ChunkInsidePage(p, left);
    ChunkNoWrap(p, left, wide);
    PhysTwice(pos + off, sz, wide);
    assert pos + off + sz == pos + (off + sz);
  }

  lemma NothingLeft(env: Env, wide: bool, pos: int, off: nat)
    ensures ReadsClean(env, pos, wide, off, 0)
  {
  }

  lemma ReadGoesOn(env: Env, wide: bool, pos: int, read: nat, left: nat)
    requires left > 0
    ensures var sz := SizeInsidePage(Phys(pos + read, wide), left);
            0 < sz <= left &&
            (ReadsClean(env, pos + read, wide, read, left) <==>
               && env.mapping(read).Some? && !env.probeFails(read) && Left(env, read, sz) == 0
               && ReadsClean(env, pos + (read + sz), wide, read + sz, left - sz))
  {
    var sz := SizeInsidePage(Phys(pos + read, wide), left);
    ChunkInsidePage(Phys(pos + read, wide), left);
    assert pos + read + sz == pos + (read + sz);
  }

  lemma ReachGoesOn(env: Env, wide: bool, pos: int, written: nat, left: nat)
    requires left > 0 && env.mapping(written).Some?
    requires Left(env, written, SizeInsidePage(Phys(pos + written, wide), left)) == 0
    ensures var sz := SizeInsidePage(Phys(pos + written, wide), left);
            && 0 < sz <= left
            && Reach(env, pos + written, wide, written, left) ==
               sz + Reach(env, pos + (written + sz), wide, written + sz, left - sz)
            && Padding(env, pos + written, wide, written, left) ==
               Padding(env, pos + (written + sz), wide, written + sz, left - sz)
  {
    hide Phys, SizeInsidePage, PageBase;
    var sz := SizeInsidePage(Phys(pos + written, wide), left);
    ChunkInsidePage(Phys(pos + written, wide), left);
    assert pos + written + sz == pos + (written + sz);
  }

  lemma ReachStops(env: Env, wide: bool, pos: int, written: nat, left: nat)
    requires left > 0 && env.mapping(written).Some?
    requires Left(env, written, SizeInsidePage(Phys(pos + written, wide), left)) > 0
    ensures var sz := SizeInsidePage(Phys(pos + written, wide), left);
            var missed := Left(env, written, sz);
            && Reach(env, pos + written, wide, written, left) == sz - missed
            && Padding(env, pos + written, wide, written, left) == if env.pads then missed else 0
  {
  }

  /** Storing one more chunk: the flat write grows by it. */
  lemma StoreMore(mem: seq<byte>, was: seq<byte>, now: seq<byte>, wide: bool, p: int, a: seq<byte>, chunk: seq<byte>)
    requires |mem| == Space(wide) && was == FlatWrite(mem, wide, p, a)
    requires var q := Phys(p + |a|, wide);
             q + |chunk| <= Space(wide) && now == was[..q] + chunk + was[q + |chunk|..]
    ensures now == FlatWrite(mem, wide, p, a + chunk)
  {
    WriteAppend(mem, wide, p, a, chunk);
    WriteChunk(was, wide, p + |a|, chunk);
  }

  // ----- one write, on the flat side -----

  /**
   * What a write leaves: the first bytes of the user's data, up to the first fault, stored flat from the file
   * position on, and after them at most the zero padding of the chunk that failed.
   */
  ghost predicate PrefixStored(mem: seq<byte>, now: seq<byte>, wide: bool, pos: int, data: seq<byte>, env: Env)
    requires |mem| == Space(wide)
  {
    var n := Reach(env, pos, wide, 0, |data|);
    now == FlatWrite(mem, wide, pos, data[..n] + Zeros(Padding(env, pos, wide, 0, |data|)))
  }

  /** The loop stands at `written`: everything before is stored and the outcome is decided by what is left. */
  ghost predicate WriteStands(mem: seq<byte>, now: seq<byte>, wide: bool, pos: int,
                              data: seq<byte>, env: Env, written: nat)
    requires |mem| == Space(wide)
  {
    && written <= |data|
    && now == FlatWrite(mem, wide, pos, data[..written])
    && Reach(env, pos, wide, 0, |data|) == written + Reach(env, pos + written, wide, written, |data| - written)
    && Padding(env, pos, wide, 0, |data|) == Padding(env, pos + written, wide, written, |data| - written)
  }

  lemma WriteStarts(mem: seq<byte>, wide: bool, pos: loff, data: seq<byte>, env: Env)
    requires |mem| == Space(wide)
    ensures WriteStands(mem, mem, wide, pos, data, env, 0)
    ensures WrapLoff(pos) == pos
  {
  }

  /** Nothing is left, or the next page cannot be mapped: the loop ends here. */
  lemma WriteEnds(mem: seq<byte>, now: seq<byte>, wide: bool, pos: int, data: seq<byte>, env: Env, written: nat)
    requires |mem| == Space(wide) && WriteStands(mem, now, wide, pos, data, env, written)
    requires written == |data| || env.mapping(written).None?
    ensures written == Reach(env, pos, wide, 0, |data|) && PrefixStored(mem, now, wide, pos, data, env)
  {
    assert data[..written] + Zeros(0) == data[..written];
  }

  /** The user copy into a mapped chunk, with `missed` of its bytes not copied. */
  ghost predicate ChunkStored(was: seq<byte>, now: seq<byte>, p: nat, bytes: seq<byte>, missed: nat, pads: bool)
    requires missed <= |bytes| && p + |bytes| <= |was|
  {
    var stored := bytes[..|bytes| - missed] + Zeros(if pads then missed else 0);
    now == was[..p] + stored + was[p + |stored|..]
  }

  lemma WriteGoesOn(mem: seq<byte>, was: seq<byte>, now: seq<byte>, wide: bool, pos: int,
                    data: seq<byte>, env: Env, written: nat)
    requires |mem| == Space(wide) && WriteStands(mem, was, wide, pos, data, env, written)
    requires written < |data| && env.mapping(written).Some?
    requires var p := Phys(pos + written, wide);
             var sz := SizeInsidePage(p, |data| - written);
             && p + sz <= |was| && Left(env, written, sz) == 0
             && ChunkStored(was, now, p, data[written..written + sz], 0, env.pads)
    ensures var sz := SizeInsidePage(Phys(pos + written, wide), |data| - written);
            WriteStands(mem, now, wide, pos, data, env, written + sz)
  {
    hide Phys, SizeInsidePage, FlatWrite, Reach, Padding;
    var p := Phys(pos + written, wide);
    var sz := SizeInsidePage(p, |data| - written);
    ReachGoesOn(env, wide, pos, written, |data| - written);
    var bytes := data[written..written + sz];
    assert bytes[..|bytes| - 0] + Zeros(0) == bytes;
    StoreMore(mem, was, now, wide, pos, data[..written], bytes);
    assert data[..written] + bytes == data[..written + sz];
  }

  lemma Splice(data: seq<byte>, at: nat, sz: nat, k: nat, zeros: seq<byte>)
    requires k <= sz && at + sz <= |data|
    ensures data[..at] + (data[at..at + sz][..k] + zeros) == data[..at + k] + zeros
  {
    assert data[..at] + data[at..at + sz][..k] == data[..at + k];
    assert data[..at] + (data[at..at + sz][..k] + zeros) == (data[..at] + data[at..at + sz][..k]) + zeros;
  }

  lemma WriteFaults(mem: seq<byte>, was: seq<byte>, now: seq<byte>, wide: bool, pos: int,
                    data: seq<byte>, env: Env, written: nat)
    requires |mem| == Space(wide) && WriteStands(mem, was, wide, pos, data, env, written)
    requires written < |data| && env.mapping(written).Some?
    requires var p := Phys(pos + written, wide);
             var sz := SizeInsidePage(p, |data| - written);
             var missed := Left(env, written, sz);
             p + sz <= |was| && missed > 0 && ChunkStored(was, now, p, data[written..written + sz], missed, env.pads)
    ensures var sz := SizeInsidePage(Phys(pos + written, wide), |data| - written);
            written + sz - Left(env, written, sz) == Reach(env, pos, wide, 0, |data|)
    ensures PrefixStored(mem, now, wide, pos, data, env)
  {
    hide Phys, SizeInsidePage, FlatWrite, Reach, Padding;
    var p := Phys(pos + written, wide);
    var sz := SizeInsidePage(p, |data| - written);
    ReachStops(env, wide, pos, written, |data| - written);
    ChunkInsidePage(p, |data| - written);
    var missed := Left(env, written, sz);
    var bytes, zeros := data[written..written + sz], Zeros(if env.pads then missed else 0);
    var got := bytes[..sz - missed];
    StoreMore(mem, was, now, wide, pos, data[..written], got + zeros);
    Splice(data, written, sz, sz - missed, zeros);
  }

  /** A byte beyond those stored keeps its value. */
  lemma {:induction false} UntouchedByte(mem: seq<byte>, wide: bool, p: int, data: seq<byte>, j: nat)
    requires |mem| == Space(wide) && |data| <= j < Space(wide)
    ensures FlatWrite(mem, wide, p, data)[Phys(p + j, wide)] == mem[Phys(p + j, wide)]
    decreases |data|
  {
    hide Phys, Space;
    if data != [] {
      UntouchedByte(mem, wide, p, data[..|data| - 1], j);
      PhysApart(p, |data| - 1, j, wide);
      assert p + (|data| - 1) == p + |data| - 1;
    }
  }

  function At(mem: seq<byte>, wide: bool, a: int): byte
    requires |mem| == Space(wide)
  {
    mem[Phys(a, wide)]
  }

  /** The `n` bytes from `p` on are all zero. */
  ghost predicate AllZero(mem: seq<byte>, wide: bool, p: int, n: nat)
    requires |mem| == Space(wide)
  {
    forall a :: p <= a < p + n ==> At(mem, wide, a) == 0
  }

  lemma {:induction false} ZerosOverZeros(mem: seq<byte>, wide: bool, p: int, n: nat)
    requires |mem| == Space(wide) && AllZero(mem, wide, p, n)
    ensures FlatWrite(mem, wide, p, Zeros(n)) == mem
  {
    hide Phys, Space;
    if n > 0 {
      assert Zeros(n)[..n - 1] == Zeros(n - 1);
      ZerosOverZeros(mem, wide, p, n - 1);
      assert p + (n - 1) == p + n - 1 && At(mem, wide, p + n - 1) == 0;
      assert mem[Phys(p + n - 1, wide) := 0] == mem;
    }
  }

  /**
   * A write changes exactly the prefix its value reports if and only if the zero padding, if any, fell on zeros.
   * Without padding that is always so; with it, bytes the caller is told were not written are lost.
   */
  lemma PrefixExact(mem: seq<byte>, now: seq<byte>, wide: bool, pos: int, data: seq<byte>, env: Env)
    requires |mem| == Space(wide) && |data| <= Space(wide) && PrefixStored(mem, now, wide, pos, data, env)
    ensures var n := Reach(env, pos, wide, 0, |data|);
            now == FlatWrite(mem, wide, pos, data[..n]) <==>
            AllZero(mem, wide, pos + n, Padding(env, pos, wide, 0, |data|))
  {
    hide Phys, Space, FlatWrite, Reach, Padding;
    var n, z := Reach(env, pos, wide, 0, |data|), Padding(env, pos, wide, 0, |data|);
    var prefix := data[..n];
    var short := FlatWrite(mem, wide, pos, prefix);
    forall a | pos + n <= a < pos + n + z ensures At(now, wide, a) == 0 && At(short, wide, a) == At(mem, wide, a) {
      assert pos + (a - pos) == a;
      UntouchedByte(mem, wide, pos, prefix, a - pos);
      WrittenByte(mem, wide, pos, prefix + Zeros(z), a - pos);
    }
    if AllZero(mem, wide, pos + n, z) {
      ZerosOverZeros(short, wide, pos + n, z);
      WriteAppend(mem, wide, pos, prefix, Zeros(z));
    }
  }

  /**
   * One byte to write, none of which can be copied from the user, onto a byte that is not zero: the write
   * returns EFAULT, having reached nothing, and the byte is gone.
   */
  lemma PaddingLosesByte(mem: seq<byte>, b: byte)
    requires |mem| == Space(false) && mem[0] != 0
    ensures var env := Env(_ => Some(0), _ => false, _ => 1, true);
            && Reach(env, 0, false, 0, 1) == 0 && Padding(env, 0, false, 0, 1) == 1
            && PrefixStored(mem, mem[0 := 0], false, 0, [b], env)
            && mem[0 := 0] != FlatWrite(mem, false, 0, [b][..0])
  {
    var env := Env(_ => Some(0), _ => false, _ => 1, true);
    assert SizeInsidePage(Phys(0, false), 1) == 1 && Left(env, 0, 1) == 1;
    assert Reach(env, 0, false, 0, 1) == 0 && Padding(env, 0, false, 0, 1) == 1;
    assert [b][..0] + Zeros(1) == [0] && [b][..0] == [];
    OneByte(mem);
    hide FlatWrite, Space;
    assert mem[0 := 0][0] == 0;
  }

  lemma OneByte(mem: seq<byte>)
    requires |mem| == Space(false)
    ensures FlatWrite(mem, false, 0, []) == mem && FlatWrite(mem, false, 0, [0]) == mem[0 := 0]
  {
    assert [0][..0] == [] && Phys(0, false) == 0;
  }

  // ----- the device -----

  /** One page of physical memory, at `page`, seen at the virtual address `vaddr`. */
  datatype Window = Window(vaddr: nat, page: nat)

  class MemMapFile {
    const wide: bool
    const mem: array<byte>
    var pos: loff
    var window: Option<Window>

    ghost predicate Valid()
      reads this
    {
      && mem.Length == Space(wide)
      && (window.Some? ==>
            && window.value.vaddr % PAGE_SIZE == 0
            && window.value.page % PAGE_SIZE == 0
            && window.value.page + PAGE_SIZE <= mem.Length)
    }

    /** Between calls nothing is mapped. */
    ghost predicate Idle()
      reads this
    {
      Valid() && window.None?
    }

    /** The `n` bytes at `ptr` lie in the one page that is mapped. */
    ghost predicate Covers(ptr: nat, n: nat)
      reads this
    {
      window.Some? && window.value.vaddr <= ptr && ptr + n <= window.value.vaddr + PAGE_SIZE
    }

    /** The physical address seen at `ptr`. */
    function Behind(ptr: nat): nat
      requires Covers(ptr, 0)
      reads this
    {
      window.value.page + (ptr - window.value.vaddr)
    }

    /** `memunmap` takes the address the mapping was made at, nothing else. */
    method Memunmap(addr: nat)
      requires window.Some? && addr == window.value.vaddr
      modifies this`window
      ensures window.None?
    {
      window := None;
    }

    /** Map the page of a physical address; the result points at that address in it. */
    method XlateDevMemPtr(phys: nat, mapping: Option<nat>) returns (ptr: Option<nat>)
      requires Idle() && phys < Space(wide)
      modifies this`window
      ensures Valid() && ptr.Some? == mapping.Some? == window.Some?
      ensures ptr.Some? ==> Covers(ptr.value, PAGE_SIZE - phys % PAGE_SIZE) && Behind(ptr.value) == phys
      ensures ptr.Some? ==> PageBase(ptr.value) == window.value.vaddr
    {
      var start := PageBase(phys);
      var offset := phys % PAGE_SIZE;
      if mapping.None? {
        return None;
      }
      var vaddr := PAGE_SIZE * mapping.value;
      ChunkNoWrap(phys, PAGE_SIZE, wide);
      window := Some(Window(vaddr, start));
      return Some(vaddr + offset);
    }

    method UnxlateDevMemPtr(ptr: nat)
      requires Valid() && window.Some? && PageBase(ptr) == window.value.vaddr
      modifies this`window
      ensures Idle()
    {
      Memunmap(PageBase(ptr));
    }

    /** One turn of the read loop: map, copy to the bounce buffer, unmap, copy to the user. */
    method ReadChunk(buf: array<byte>, at: nat, p: nat, sz: nat, env: Env) returns (ok: bool)
      requires Idle() && p < Space(wide) && sz <= PAGE_SIZE - p % PAGE_SIZE
      requires buf != mem && at + sz <= buf.Length
      modifies this`window, buf
      ensures Idle() && p + sz <= mem.Length
      ensures ok <==> env.mapping(at).Some? && !env.probeFails(at) && Left(env, at, sz) == 0
      ensures sz > 0 ==> ok == ReadsAt(env, at)
      ensures ok ==> buf[..at + sz] == old(buf[..at]) + mem[p..p + sz]
      ensures buf[..at] == old(buf[..at]) && buf[at + sz..] == old(buf[at + sz..])
    {
      ChunkNoWrap(p, PAGE_SIZE, wide);
      var ptr := XlateDevMemPtr(p, env.mapping(at));
      if ptr.None? {
        return false;
      }
      var from := Behind(ptr.value);
      var bounce := mem[from..from + sz];
      UnxlateDevMemPtr(ptr.value);
      if env.probeFails(at) {
        return false;
      }
      var copied := sz - Left(env, at, sz);
      forall i | 0 <= i < copied {
        buf[at + i] := bounce[i];
      }
      assert copied == sz ==> buf[at..at + sz] == bounce;
      assert buf[..at + sz] == buf[..at] + buf[at..at + sz];
      return copied == sz;
    }

    /** Read: all of the bytes asked for, or an error and no move. */
    method Read(buf: array<byte>, count: nat, env: Env, noMem: bool) returns (ret: int)
      requires Idle() && count <= buf.Length && buf != mem
      modifies this`pos, this`window, buf
      ensures Idle() && buf[count..] == old(buf[count..])
      ensures !Representable(old(pos), wide) ==> ret == 0 && pos == old(pos) && buf[..] == old(buf[..])
      ensures Representable(old(pos), wide) && noMem ==> ret == -12 && pos == old(pos) && buf[..] == old(buf[..])
      ensures Representable(old(pos), wide) && !noMem && !ReadsClean(env, old(pos), wide, 0, count) ==>
                ret == -14 && pos == old(pos)
      ensures Representable(old(pos), wide) && !noMem && ReadsClean(env, old(pos), wide, 0, count) ==>
                && ret == count && pos == WrapLoff(old(pos) + count)
                && buf[..count] == FlatRead(mem[..], wide, old(pos), count)
    {
      hide Phys, FlatRead, ReadsClean, SizeInsidePage, Representable, WrapLoff, Left;
      var p := Phys(pos, wide);
      if !Representable(pos, wide) {
        return 0;
      }
      if noMem {
        return ENOMEM;
      }
      var read: nat, left: nat := 0, count;
      ghost var pos0, mem0 := pos, mem[..];
      NothingRead(mem0, wide, pos);
      while left > 0
        invariant Idle() && pos == pos0 && read + left == count && mem[..] == mem0
        invariant p == Phys(pos0 + read, wide)
        invariant buf[..read] == FlatRead(mem0, wide, pos0, read)
        invariant buf[count..] == old(buf[count..])
        invariant ReadsClean(env, pos0, wide, 0, count) <==> ReadsClean(env, pos0 + read, wide, read, left)
      {
        var sz := SizeInsidePage(p, left);
        Turn(wide, pos0, read, left);
        ReadGoesOn(env, wide, pos0, read, left);
        var ok := ReadChunk(buf, read, p, sz, env);
        if !ok {
          return EFAULT;
        }
        ReadMore(mem0, wide, pos0, read, sz);
        p := Phys(p + sz, wide);
        left := left - sz;
        read := read + sz;
      }
      NothingLeft(env, wide, pos0 + read, read);
      pos := WrapLoff(pos + read);
      return read;
    }

    /** `copy_from_user` into the mapped page: what cannot be copied is zeroed or left alone. */
    method StoreChunk(p: nat, bytes: seq<byte>, mapping: Option<nat>, missed: nat, pads: bool)
      requires Idle() && p < Space(wide) && missed <= |bytes| <= PAGE_SIZE - p % PAGE_SIZE
      modifies this`window, mem
      ensures Idle() && p + |bytes| <= mem.Length
      ensures mapping.None? ==> mem[..] == old(mem[..])
      ensures mapping.Some? ==> ChunkStored(old(mem[..]), mem[..], p, bytes, missed, pads)
    {
      ChunkNoWrap(p, PAGE_SIZE, wide);
      var ptr := XlateDevMemPtr(p, mapping);
      if ptr.Some? {
        var stored := bytes[..|bytes| - missed] + Zeros(if pads then missed else 0);
        var to := Behind(ptr.value);
        forall i | 0 <= i < |stored| {
          mem[to + i] := stored[i];
        }
        UnxlateDevMemPtr(ptr.value);
      }
    }

    /** Write: a prefix of the user's bytes, as long as the value returned; an error only when nothing was written. */
    method Write(data: seq<byte>, env: Env) returns (ret: int)
      requires Idle()
      modifies this`pos, this`window, mem
      ensures Idle()
      ensures !Representable(old(pos), wide) ==> ret == -27 && pos == old(pos) && mem[..] == old(mem[..])
      ensures Representable(old(pos), wide) ==>
                var n := Reach(env, old(pos), wide, 0, |data|);
                && ret == (if n == 0 && data != [] then -14 else n)
                && pos == WrapLoff(old(pos) + n)
                && PrefixStored(old(mem[..]), mem[..], wide, old(pos), data, env)
    {
      hide Phys, Reach, SizeInsidePage, Representable, WrapLoff, Left, WriteStands, PrefixStored, ChunkStored;
      var p := Phys(pos, wide);
      if !Representable(pos, wide) {
        return EFBIG;
      }
      var written: nat, left: nat := 0, |data|;
      ghost var pos0, mem0 := pos, mem[..];
      WriteStarts(mem0, wide, pos, data, env);
      while left > 0
        invariant Idle() && pos == pos0 && written + left == |data|
        invariant p == Phys(pos0 + written, wide)
        invariant WriteStands(mem0, mem[..], wide, pos0, data, env, written)
      {
        var sz := SizeInsidePage(p, left);
        Turn(wide, pos0, written, left);
        var missed := Left(env, written, sz);
        LeftBound(env, written, sz);
        ghost var was := mem[..];
        StoreChunk(p, data[written..written + sz], env.mapping(written), missed, env.pads);
        if env.mapping(written).None? {
          WriteEnds(mem0, mem[..], wide, pos0, data, env, written);
          if written > 0 {
            break;
          }
          return EFAULT;
        }
        if missed > 0 {
          WriteFaults(mem0, was, mem[..], wide, pos0, data, env, written);
          written := written + sz - missed;
          if written > 0 {
            break;
          }
          return EFAULT;
        }
        WriteGoesOn(mem0, was, mem[..], wide, pos0, data, env, written);
        p := Phys(p + sz, wide);
        left := left - sz;
        written := written + sz;
      }
      if left == 0 {
        WriteEnds(mem0, mem[..], wide, pos0, data, env, written);
      }
      pos := WrapLoff(pos + written);
      return written;
    }

    /** Seek: relative offsets wrap; targets that would read as an error number are refused. */
    method Lseek(offset: loff, orig: int) returns (ret: int)
      modifies this`pos
      ensures var target := if orig == 1 then WrapLoff(offset + old(pos)) else offset;
              if orig != 0 && orig != 1 then ret == -22 && pos == old(pos)
              else if -4095 <= target < 0 then ret == -75 && pos == old(pos)
              else ret == target && pos == target
    {
      var target := offset;
      if orig == SEEK_CUR {
        target := WrapLoff(target + pos);
      }
      if orig == SEEK_CUR || orig == SEEK_SET {
        if ToU64(target) >= 0x1_0000_0000_0000_0000 - MAX_ERRNO {
          ret := EOVERFLOW;
        } else {
          pos := target;
          ret := pos;
        }
      } else {
        ret := EINVAL;
      }
    }
  }

  /** On plain memory: write, seek back, read returns the bytes written. */
  method WriteSeekRead(f: MemMapFile, data: seq<byte>, buf: array<byte>, env: Env) returns (ret: int)
    requires f.Idle() && FaultFree(env) && buf != f.mem && buf.Length == |data| <= Space(f.wide)
    requires Representable(f.pos, f.wide)
    modifies f, f.mem, buf
    ensures f.Idle()
    ensures -4095 <= old(f.pos) < 0 <==> ret == -75
    ensures ret != -75 ==> ret == |data| && buf[..] == data
  {
    hide FlatWrite, FlatRead, Reach, Padding, ReadsClean, Phys, Representable, FaultFree;
    var start := f.pos;
    ghost var mem0 := f.mem[..];
    FaultFreeReaches(env, start, f.wide, 0, |data|);
    var written := f.Write(data, env);
    assert data[..|data|] + Zeros(0) == data;
    ret := f.Lseek(start, SEEK_SET);
    if ret == EOVERFLOW {
      return;
    }
    ret := f.Read(buf, |data|, env, false);
    FlatRoundTrip(mem0, f.wide, start, data);
    assert buf[..] == buf[..|data|];
  }
}

/** Small things every part of the model uses. */
module Common {

  datatype Option<+T> = None | Some(value: T)

  type byte = x: int | 0 <= x < 256
  type u16 = x: int | 0 <= x < 0x1_0000
  type u32 = x: int | 0 <= x < 0x1_0000_0000
  type i32 = x: int | -0x8000_0000 <= x < 0x8000_0000

  const ADDR_ANY: u32 := 0xFFFF_FFFF
  const INT_MAX := 0x7FFF_FFFF

  /** A signed value converted to an unsigned 64-bit one. */
  function ToU64(x: int): nat
    requires -0x8000_0000_0000_0000 <= x
  {
    if x < 0 then x + 0x1_0000_0000_0000_0000 else x
  }

  // Errno values, as the kernel returns them.
  const EIO := -5
  const ENOMEM := -12
  const EFAULT := -14
  const EINVAL := -22
  const ENOSPC := -28
  const EPIPE := -32
  const EAGAIN := -11
  const EMSGSIZE := -90
  const ERESTARTSYS := -512

  function Zeros(n: nat): (z: seq<byte>)
    ensures |z| == n && forall i :: 0 <= i < n ==> z[i] == 0
  {
    seq(n, _ => 0)
  }

  /** The indices of `xs` whose element satisfies `f`. */
  ghost function Members<T>(xs: seq<T>, f: T -> bool): (m: set<nat>)
  {
    set i: nat | i < |xs| && f(xs[i])
  }

  /** Changing one element moves the number of members by at most one, in the direction of the change. */
  lemma MembersUpdate<T>(xs: seq<T>, f: T -> bool, i: nat, x: T)
    requires i < |xs|
    ensures |Members(xs[i := x], f)| ==
            |Members(xs, f)| - (if f(xs[i]) then 1 else 0) + (if f(x) then 1 else 0)
  {
    var rest := Members(xs, f) - {i};
    assert Members(xs, f) == if f(xs[i]) then rest + {i} else rest;
    assert Members(xs[i := x], f) == if f(x) then rest + {i} else rest;
  }

  lemma MembersNone<T>(xs: seq<T>, f: T -> bool)
    requires forall i: nat :: i < |xs| ==> !f(xs[i])
    ensures |Members(xs, f)| == 0
  {
    assert Members(xs, f) == {};
  }

  lemma MembersSome<T>(xs: seq<T>, f: T -> bool, i: nat)
    requires i < |xs| && f(xs[i])
    ensures |Members(xs, f)| >= 1
  {
    assert i in Members(xs, f);
    assert {i} <= Members(xs, f);
    SubsetSize({i}, Members(xs, f));
  }

  lemma MembersTwo<T>(xs: seq<T>, f: T -> bool, i: nat, j: nat)
    requires i < |xs| && j < |xs| && i != j && f(xs[i]) && f(xs[j])
    ensures |Members(xs, f)| >= 2
  {
    assert {i, j} <= Members(xs, f);
    SubsetSize({i, j}, Members(xs, f));
  }

  lemma SubsetSize<T>(a: set<T>, b: set<T>)
    requires a <= b
    ensures |a| <= |b|
  {
    assert b == a + (b - a);
    assert |a + (b - a)| == |a| + |b - a|;
  }

  /** The contract of the kernel's id allocators: the lowest id from `lo` to `hi` not in use. */
  function LowestFree(ids: set<nat>, lo: nat, hi: int): (r: Option<nat>)
    ensures r.Some? ==> lo <= r.value <= hi && r.value !in ids && forall i: nat :: lo <= i < r.value ==> i in ids
    ensures r.None? ==> forall i: nat :: lo <= i <= hi ==> i in ids
    decreases hi - lo
  {
    if lo > hi then None
    else if lo !in ids then Some(lo)
    else LowestFree(ids, lo + 1, hi)
  }
}

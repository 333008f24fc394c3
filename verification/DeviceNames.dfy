/** Names: C strings in fixed arrays, their comparison, and the printed device name of a channel. */
module DeviceNames {
  import opened Common

  const NAME_SIZE := 32 // RPMSG_NAME_SIZE

  /** A name as the structures hold it: an array, terminated only when it is shorter. */
  type NameArray = a: seq<byte> | |a| == NAME_SIZE witness seq(NAME_SIZE, _ => 0)

  // ----- C strings -----

  /** The characters before the first NUL. */
  function CStr(a: seq<byte>): (s: seq<byte>)
    ensures s <= a && 0 !in s && (|s| == |a| || a[|s|] == 0)
  {
    if a == [] || a[0] == 0 then [] else [a[0]] + CStr(a[1..])
  }

  /** `strncmp(a, b, n) == 0`: compare until a difference, a NUL, or `n` characters. */
  predicate StrnEqual(a: seq<byte>, b: seq<byte>, n: nat)
    requires n <= |a| && n <= |b|
  {
    n == 0 || (a[0] == b[0] && (a[0] == 0 || StrnEqual(a[1..], b[1..], n - 1)))
  }

  /** Comparing two whole arrays is comparing the strings in them. */
  lemma {:induction false} StrnEqualExact(a: seq<byte>, b: seq<byte>)
    requires |a| == |b|
    ensures StrnEqual(a, b, |a|) <==> CStr(a) == CStr(b)
  {
    if a != [] {
      StrnEqualExact(a[1..], b[1..]);
      if a[0] == b[0] != 0 {
        assert CStr(a)[1..] == CStr(a[1..]) && CStr(b)[1..] == CStr(b[1..]);
      } else if a[0] != b[0] {
        assert CStr(a) != CStr(b) by {
          if a[0] != 0 { assert CStr(a)[0] == a[0]; } else { assert CStr(b)[0] == b[0]; }
        }
      }
    }
  }

  /** `strncpy` between arrays of one size: the string, then zeros. */
  function Strncpy(a: seq<byte>): (d: seq<byte>)
    ensures |d| == |a| && CStr(a) <= d && forall i :: |CStr(a)| <= i < |d| ==> d[i] == 0
  {
    CStr(a) + Zeros(|a| - |CStr(a)|)
  }

  lemma {:induction false} CStrPadded(s: seq<byte>, k: nat)
    requires 0 !in s
    ensures CStr(s + Zeros(k)) == s
  {
    if s == [] {
      assert s + Zeros(k) == Zeros(k);
    } else {
      assert (s + Zeros(k))[1..] == s[1..] + Zeros(k);
      CStrPadded(s[1..], k);
    }
  }

  /** A terminator at the end changes nothing. */
  lemma {:induction false} CStrEnded(a: seq<byte>)
    ensures CStr(a + [0]) == CStr(a)
  {
    if a == [] {
      assert a + [0] == [0];
    } else {
      CStrEnded(a[1..]);
      assert (a + [0])[1..] == a[1..] + [0];
    }
  }

  /** The copy holds the same string. */
  lemma StrncpyKeeps(a: seq<byte>)
    ensures CStr(Strncpy(a)) == CStr(a)
  {
    CStrPadded(CStr(a), |a| - |CStr(a)|);
  }

  // ----- printing -----

  const DOT: byte := 46
  const MINUS: byte := 45
  const SLASH: byte := 47
  const BANG: byte := 33

  predicate Digits(s: seq<byte>) {
    forall i :: 0 <= i < |s| ==> 48 <= s[i] <= 57
  }

  function Decimal(n: nat): (s: seq<byte>)
    ensures s != [] && Digits(s) && (s[0] == 48 ==> s == [48])
  {
    if n < 10 then [48 + n] else Decimal(n / 10) + [48 + n % 10]
  }

  function ValueOf(s: seq<byte>): nat
    requires Digits(s)
  {
    if s == [] then 0 else 10 * ValueOf(s[..|s| - 1]) + (s[|s| - 1] - 48)
  }

  lemma {:induction false} DecimalValue(n: nat)
    ensures ValueOf(Decimal(n)) == n
  {
    if n >= 10 {
      DecimalValue(n / 10);
      assert Decimal(n)[..|Decimal(n)| - 1] == Decimal(n / 10);
    } else {
      assert Decimal(n)[..0] == [];
    }
  }

  /** `%d` of an unsigned 32-bit value, which prints it as a signed one. */
  function PrintD(x: u32): (s: seq<byte>)
    ensures DOT !in s && SLASH !in s
  {
    if x < 0x8000_0000 then Decimal(x) else [MINUS] + Decimal(0x1_0000_0000 - x)
  }

  /** The signed value in decimal digits, without leading zeros. */
  lemma PrintDExact(x: u32)
    ensures var s, n := PrintD(x), if x < 0x8000_0000 then x else 0x1_0000_0000 - x;
            var digits := if x < 0x8000_0000 then s else s[1..];
            && s != [] && (x >= 0x8000_0000 ==> s[0] == 45)
            && Digits(digits) && ValueOf(digits) == n
            && digits != [] && (digits[0] == 48 ==> digits == [48])
  {
    DecimalValue(if x < 0x8000_0000 then x else 0x1_0000_0000 - x);
  }

  lemma PrintDInjective(x: u32, y: u32)
    requires PrintD(x) == PrintD(y)
    ensures x == y
  {
    DecimalValue(x);
    DecimalValue(y);
    DecimalValue(0x1_0000_0000 - x);
    DecimalValue(0x1_0000_0000 - y);
    assert PrintD(x)[0] == MINUS <==> x >= 0x8000_0000;
    assert PrintD(y)[0] == MINUS <==> y >= 0x8000_0000;
    if x >= 0x8000_0000 {
      assert PrintD(x)[1..] == Decimal(0x1_0000_0000 - x) && PrintD(y)[1..] == Decimal(0x1_0000_0000 - y);
    }
  }

  /** What is printed for a channel: "%s.%d.%d". */
  function Printed(name: seq<byte>, src: u32, dst: u32): seq<byte> {
    name + [DOT] + PrintD(src) + [DOT] + PrintD(dst)
  }

  /** A string splits in one way at its last dot. */
  lemma LastDot(a: seq<byte>, x: seq<byte>, b: seq<byte>, y: seq<byte>)
    requires a + [DOT] + x == b + [DOT] + y && DOT !in x && DOT !in y
    ensures a == b && x == y
  {
    var s := a + [DOT] + x;
    assert s[|a|] == DOT && (b + [DOT] + y)[|b|] == DOT;
    assert |a| == |b|;
    assert a == s[..|a|] && b == s[..|a|];
    assert x == s[|a| + 1..] && y == s[|a| + 1..];
  }

  /** Distinct channels print as distinct names, dots in the service name or not. */
  lemma PrintedInjective(n1: seq<byte>, s1: u32, d1: u32, n2: seq<byte>, s2: u32, d2: u32)
    ensures Printed(n1, s1, d1) == Printed(n2, s2, d2) <==> n1 == n2 && s1 == s2 && d1 == d2
  {
    if Printed(n1, s1, d1) == Printed(n2, s2, d2) {
      LastDot(n1 + [DOT] + PrintD(s1), PrintD(d1), n2 + [DOT] + PrintD(s2), PrintD(d2));
      LastDot(n1, PrintD(s1), n2, PrintD(s2));
      PrintDInjective(s1, s2);
      PrintDInjective(d1, d2);
    }
  }

  // ----- the name the driver core gives the device -----

  /** `dev_set_name` replaces each slash, which a file name cannot hold. */
  function Rewrite(s: seq<byte>): (r: seq<byte>)
    ensures |r| == |s|
  {
    seq(|s|, i requires 0 <= i < |s| => if s[i] == SLASH then BANG else s[i])
  }

  lemma RewriteAppend(a: seq<byte>, b: seq<byte>)
    ensures Rewrite(a + b) == Rewrite(a) + Rewrite(b)
  {
  }

  lemma RewriteSame(s: seq<byte>)
    requires SLASH !in s
    ensures Rewrite(s) == s
  {
  }

  /** Two strings are the same after rewriting exactly when they differ only by slashes and exclamation marks. */
  lemma RewriteExact(a: seq<byte>, b: seq<byte>)
    ensures SLASH !in Rewrite(a)
    ensures Rewrite(a) == Rewrite(b) <==>
            && |a| == |b|
            && (forall i: nat :: i < |a| ==> a[i] == b[i] || (a[i] in {33, 47} && b[i] in {33, 47}))
  {
    if Rewrite(a) == Rewrite(b) {
      forall i: nat | i < |a| ensures a[i] == b[i] || (a[i] in {33, 47} && b[i] in {33, 47}) {
        assert Rewrite(a)[i] == Rewrite(b)[i];
      }
    }
  }

  function DeviceName(name: seq<byte>, src: u32, dst: u32): seq<byte> {
    Rewrite(Printed(name, src, dst))
  }

  /** Rewriting touches only the service name. */
  lemma RewritePrinted(name: seq<byte>, src: u32, dst: u32)
    ensures DeviceName(name, src, dst) == Printed(Rewrite(name), src, dst)
  {
    RewriteSame(PrintD(src));
    RewriteSame(PrintD(dst));
    RewriteAppend(name + [DOT] + PrintD(src) + [DOT], PrintD(dst));
    RewriteAppend(name + [DOT] + PrintD(src), [DOT]);
    RewriteAppend(name + [DOT], PrintD(src));
    RewriteAppend(name, [DOT]);
    assert Rewrite([DOT]) == [DOT];
  }

  /** Two channels get one device name exactly when their names agree after rewriting and their addresses agree. */
  lemma DeviceNameExact(n1: seq<byte>, s1: u32, d1: u32, n2: seq<byte>, s2: u32, d2: u32)
    ensures DeviceName(n1, s1, d1) == DeviceName(n2, s2, d2) <==> Rewrite(n1) == Rewrite(n2) && s1 == s2 && d1 == d2
  {
    RewritePrinted(n1, s1, d1);
    RewritePrinted(n2, s2, d2);
    PrintedInjective(Rewrite(n1), s1, d1, Rewrite(n2), s2, d2);
  }

  /** The service a/b announced at address 53: "a!b.-1.53". */
  lemma DeviceNameExample()
    ensures DeviceName([97, 47, 98], ADDR_ANY, 53) == [97, 33, 98, 46, 45, 49, 46, 53, 51]
  {
    assert PrintD(ADDR_ANY) == [MINUS] + Decimal(1) == [45, 49];
    assert Decimal(53) == Decimal(5) + [51] == [53, 51] && PrintD(53) == Decimal(53);
    assert Printed([97, 47, 98], ADDR_ANY, 53) == [97, 47, 98, 46, 45, 49, 46, 53, 51];
  }
}

/** Big-endian scalars of 32 bytes: the byte-wise comparison with the order of P-256 is
    the numeric one. */
module Scalars {
  import opened WireBytes

  /** The number a big-endian string of bytes stands for. */
  function BE(b: Bytes): nat {
    if b == [] then 0 else b[0] * Power(|b| - 1) + BE(b[1..])
  }

  lemma {:induction false} BEBound(b: Bytes)
    ensures BE(b) < Power(|b|)
  {
    if b != [] {
      BEBound(b[1..]);
      Scaled(b[0], Power(|b| - 1));
    }
  }

  lemma Scaled(x: Byte, p: nat)
    ensures x * p + p <= 256 * p && (x > 0 ==> p <= x * p) && (x == 0 ==> x * p == 0)
  {
  }

  lemma {:induction false} BEConcat(a: Bytes, b: Bytes)
    ensures BE(a + b) == BE(a) * Power(|b|) + BE(b)
  {
    if a == [] {
      assert a + b == b;
    } else {
      BEConcat(a[1..], b);
      assert (a + b)[1..] == a[1..] + b;
      PowerSum(|a| - 1, |b|);
      Distribute(a[0], Power(|a| - 1), BE(a[1..]), Power(|b|));
    }
  }

  lemma Distribute(x: nat, p: nat, y: nat, q: nat)
    ensures (x * p + y) * q == x * (p * q) + y * q
  {
  }

  lemma {:induction false} PowerSum(m: nat, n: nat)
    ensures Power(m + n) == Power(m) * Power(n)
  {
    if m > 0 {
      PowerSum(m - 1, n);
      assert 256 * (Power(m - 1) * Power(n)) == (256 * Power(m - 1)) * Power(n);
    }
  }

  lemma {:induction false} BEInjective(a: Bytes, b: Bytes)
    requires |a| == |b| && BE(a) == BE(b)
    ensures a == b
  {
    if a != [] {
      var p := Power(|a| - 1);
      BEBound(a[1..]);
      BEBound(b[1..]);
      LeadingDigit(a[0], BE(a[1..]), b[0], BE(b[1..]), p);
      BEInjective(a[1..], b[1..]);
      assert a == [a[0]] + a[1..] && b == [b[0]] + b[1..];
    }
  }

  /** The leading digit decides. */
  lemma LeadingDigit(x: nat, r: nat, y: nat, s: nat, p: nat)
    requires r < p && s < p
    ensures x < y ==> x * p + r < y * p + s
    ensures x * p + r == y * p + s ==> x == y
  {
    if x < y { assert (x + 1) * p <= y * p; }
    if y < x { assert (y + 1) * p <= x * p; }
  }

  // ----- comparison

  /** The first differing byte decides, as memcmp has it. */
  predicate Below(a: Bytes, b: Bytes)
    requires |a| == |b|
  {
    a != [] && (a[0] < b[0] || (a[0] == b[0] && Below(a[1..], b[1..])))
  }

  /** Comparing the bytes is comparing the numbers. */
  lemma {:induction false} BelowIsLess(a: Bytes, b: Bytes)
    requires |a| == |b|
    ensures Below(a, b) <==> BE(a) < BE(b)
  {
    if a != [] {
      var p := Power(|a| - 1);
      BelowIsLess(a[1..], b[1..]);
      BEBound(a[1..]);
      BEBound(b[1..]);
      LeadingDigit(a[0], BE(a[1..]), b[0], BE(b[1..]), p);
      LeadingDigit(b[0], BE(b[1..]), a[0], BE(a[1..]), p);
    }
  }

  method CompareBelow(a: Bytes, b: Bytes) returns (below: bool)
    requires |a| == |b|
    ensures below <==> Below(a, b)
  {
    var i := 0;
    while i < |a| && a[i] == b[i]
      invariant i <= |a| && Below(a, b) == Below(a[i..], b[i..])
    {
      i := i + 1;
    }
    below := i < |a| && a[i] < b[i];
  }

  // ----- the order of the group

  const UPPER: Bytes := [0xff, 0xff, 0xff, 0xff] + [0x00, 0x00, 0x00, 0x00] + [0xff, 0xff, 0xff, 0xff] + [0xff, 0xff,
      0xff, 0xff]

  const ORDER: Bytes := UPPER + [0xbc, 0xe6, 0xfa, 0xad] + [0xa7, 0x17, 0x9e, 0x84] + [0xf3, 0xb9, 0xca,
      0xc2] + [0xfc, 0x63, 0x25, 0x51]

  /** n, the order of the group of P-256. */
  const N: nat := 0xffffffff00000000ffffffffffffffffbce6faada7179e84f3b9cac2fc632551

  lemma OrderLimb(a: Byte, b: Byte, c: Byte, d: Byte)
    ensures BE([a, b, c, d]) == ((a * 256 + b) * 256 + c) * 256 + d
  {
    assert [a, b, c, d][1..] == [b, c, d] && [b, c, d][1..] == [c, d] && [c, d][1..] == [d] && [d][1..] == [];
    assert BE([d]) == d;
    assert BE([c, d]) == c * 256 + d;
    assert BE([b, c, d]) == b * 65536 + (c * 256 + d);
  }

  lemma FourLimbs(a: Bytes, b: Bytes, c: Bytes, d: Bytes)
    requires |b| == |c| == |d| == 4
    ensures BE(a + b + c + d) == ((BE(a) * 0x1_0000_0000 + BE(b)) * 0x1_0000_0000 + BE(c)) * 0x1_0000_0000 + BE(d)
  {
    hide BE;
    AppendLimb(a, b);
    AppendLimb(a + b, c);
    AppendLimb(a + b + c, d);
  }

  lemma UpperHalf()
    ensures |UPPER| == 16 && BE(UPPER) == 0xffffffff00000000ffffffffffffffff
  {
    OrderLimb(0xff, 0xff, 0xff, 0xff);
    OrderLimb(0, 0, 0, 0);
    hide BE;
    FourLimbs([0xff, 0xff, 0xff, 0xff], [0, 0, 0, 0], [0xff, 0xff, 0xff, 0xff], [0xff, 0xff, 0xff, 0xff]);
  }

  /** The constant in the code is n. */
  lemma OrderIsN()
    ensures |ORDER| == 32 && BE(ORDER) == N
  {
    UpperHalf();
    OrderLimb(0xbc, 0xe6, 0xfa, 0xad);
    OrderLimb(0xa7, 0x17, 0x9e, 0x84);
    OrderLimb(0xf3, 0xb9, 0xca, 0xc2);
    OrderLimb(0xfc, 0x63, 0x25, 0x51);
    hide BE, UPPER;
    AppendLimb(UPPER, [0xbc, 0xe6, 0xfa, 0xad]);
    FourLimbs(UPPER + [0xbc, 0xe6, 0xfa, 0xad], [0xa7, 0x17, 0x9e, 0x84], [0xf3, 0xb9, 0xca, 0xc2],
        [0xfc, 0x63, 0x25, 0x51]);
  }

  lemma AppendLimb(a: Bytes, b: Bytes)
    requires |b| == 4
    ensures BE(a + b) == BE(a) * 0x1_0000_0000 + BE(b)
  {
    assert Power(4) == 0x1_0000_0000;
    BEConcat(a, b);
  }

  type Scalar = s: Bytes | |s| == 32 witness seq(32, i => 0)
  type Point = p: Bytes | |p| == 65 witness seq(65, i => 0)

  /** A private key or a signature component: between 1 and n - 1. */
  ghost predicate Valid(s: Scalar) {
    0 < BE(s) < N
  }

  lemma {:induction false} ZeroIffZeros(b: Bytes)
    ensures BE(b) == 0 <==> forall i | 0 <= i < |b| :: b[i] == 0
  {
    if b != [] {
      ZeroIffZeros(b[1..]);
      Scaled(b[0], Power(|b| - 1));
      assert forall i | 1 <= i < |b| :: b[i] == b[1..][i - 1];
    }
  }

  method NonZero(b: Bytes) returns (nonzero: bool)
    ensures nonzero <==> BE(b) != 0
  {
    hide BE;
    ZeroIffZeros(b);
    nonzero := false;
    for i := 0 to |b|
      invariant !nonzero <==> forall j | 0 <= j < i :: b[j] == 0
    {
      nonzero := nonzero || b[i] != 0;
    }
  }

  /** The check the code makes: not all zero, and byte-wise below the order. */
  method ScalarInRange(s: Scalar) returns (ok: bool)
    ensures ok <==> Valid(s)
  {
    OrderIsN();
    hide BE, Below, ORDER;
    BelowIsLess(s, ORDER);
    var nonzero := NonZero(s);
    var below := CompareBelow(s, ORDER);
    ok := nonzero && below;
  }
}

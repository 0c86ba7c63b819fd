/** ECDSA signatures as two 32-byte scalars and as DER (ECDSA-Sig-Value of section 2.2.3 of
    RFC 3279, with the minimal integers of section 8.3.2 of X.690): the two conversions
    are inverse, and no pair has a second accepted encoding. */
module DerSignatures {
  import opened WireBytes
  import opened Scalars

  type Raw = r: Bytes | |r| == 64 witness seq(64, i => 0)

  const INTEGER: Byte := 0x02
  const SEQUENCE: Byte := 0x30

  // ----- nodes

  /** The length octets of a node; more than 65535 is cut to its two low bytes. */
  function LengthOctets(n: nat): Bytes {
    if n < 128 then [n] else if n < 256 then [0x81, n] else [0x82, n / 256 % 256, n % 256]
  }

  function DerWrap(tag: Byte, body: Bytes): (node: Bytes)
    ensures |node| == 1 + |LengthOctets(|body|)| + |body|
  {
    [tag] + LengthOctets(|body|) + body
  }

  // ----- integers

  /** Without leading zeros, but never empty. */
  function Magnitude(s: Bytes): (m: Bytes)
    requires s != []
    ensures 1 <= |m| <= |s| && s == seq(|s| - |m|, i => 0) + m
    ensures |m| == 1 || m[0] != 0
  {
    if |s| > 1 && s[0] == 0 then Magnitude(s[1..]) else s
  }

  lemma MagnitudeStep(s: Bytes, i: nat)
    requires i + 1 < |s| && s[i] == 0
    ensures Magnitude(s[i..]) == Magnitude(s[i + 1..])
  {
    assert s[i..][1..] == s[i + 1..];
  }

  lemma MagnitudeDone(s: Bytes)
    requires s != [] && (|s| == 1 || s[0] != 0)
    ensures Magnitude(s) == s
  {
  }

  /** A zero in front of a magnitude that would read as negative. */
  function IntegerBody(s: Bytes): (b: Bytes)
    requires s != []
    ensures 1 <= |b| <= |s| + 1 && b[0] < 128
  {
    var m := Magnitude(s);
    if m[0] >= 128 then [0] + m else m
  }

  /** Section 8.3.2 of X.690 for a non-negative integer: the sign bit clear, and the first
      nine bits not all zero. */
  predicate Minimal(b: Bytes) {
    b != [] && b[0] < 128 && (|b| > 1 && b[0] == 0 ==> b[1] >= 128)
  }

  lemma {:induction false} LeadingZeros(k: nat, m: Bytes)
    ensures BE(seq(k, i => 0) + m) == BE(m)
  {
    var s: Bytes := seq(k, i => 0) + m;
    if k == 0 {
      assert s == m;
    } else {
      LeadingZeros(k - 1, m);
      var zeros: Bytes := seq(k - 1, i => 0);
      assert s[1..] == zeros + m;
    }
  }

  /** The body is minimal and stands for the scalar. */
  lemma IntegerBodyMinimal(s: Bytes)
    requires s != []
    ensures Minimal(IntegerBody(s)) && BE(IntegerBody(s)) == BE(s)
  {
    var m := Magnitude(s);
    LeadingZeros(|s| - |m|, m);
    LeadingZeros(1, m);
    assert seq(1, i => 0) == [0];
  }

  /** Two minimal bodies of one number are the same body. */
  lemma {:induction false} MinimalUnique(a: Bytes, b: Bytes)
    requires Minimal(a) && Minimal(b) && BE(a) == BE(b)
    ensures a == b
  {
    if |a| < |b| {
      LongerIsLarger(a, b);
    } else if |b| < |a| {
      LongerIsLarger(b, a);
    } else {
      BEInjective(a, b);
    }
  }

  lemma LongerIsLarger(a: Bytes, b: Bytes)
    requires Minimal(a) && Minimal(b) && |a| < |b|
    ensures BE(a) < BE(b)
  {
    // a < 128 * 256^(|a|-1), and b is at least 256^(|b|-1), or 128 * 256^(|b|-2).
    var n, p := |a|, Power(|a| - 1);
    BEBound(a[1..]);
    assert BE(a) < 128 * p by {
      assert BE(a) == a[0] * p + BE(a[1..]);
      LeadingDigit(a[0], BE(a[1..]), 128, 0, p);
    }
    assert 128 * p <= BE(b) by {
      PowerMonotone(n - 1, |b| - 2);
      if b[0] == 0 {
        assert BE(b) == BE(b[1..]);
        Scale(b[1], 128, Power(|b| - 2));
      } else {
        Scale(b[0], 1, Power(|b| - 1));
        assert Power(|b| - 1) == 256 * Power(|b| - 2);
      }
    }
  }

  lemma Scale(x: nat, y: nat, p: nat)
    requires x >= y
    ensures x * p >= y * p
  {
  }

  lemma {:induction false} PowerMonotone(m: nat, n: nat)
    requires m <= n
    ensures Power(m) <= Power(n)
  {
    if m < n { PowerMonotone(m, n - 1); }
  }

  // ----- encoding

  function IntegerNode(s: Scalar): Bytes {
    DerWrap(INTEGER, IntegerBody(s))
  }

  function Encode(r: Scalar, s: Scalar): (der: Bytes)
    ensures 8 <= |der| <= 72
  {
    DerWrap(SEQUENCE, IntegerNode(r) + IntegerNode(s))
  }

  method DerWrapped(tag: Byte, body: Bytes) returns (out: Bytes)
    ensures out == DerWrap(tag, body)
  {
    out := [tag];
    var n := |body|;
    if n < 128 {
      out := out + [n];
    } else if n < 256 {
      out := out + [0x81];
      out := out + [n];
    } else {
      out := out + [0x82];
      out := out + [n / 256 % 256];
      out := out + [n % 256];
    }
    out := out + body;
  }

  method EncodeInteger(scalar: Scalar) returns (out: Bytes)
    ensures out == IntegerNode(scalar)
  {
    hide DerWrap, Magnitude;
    var start := 0;
    while start < 31 && scalar[start] == 0
      invariant start <= 31 && Magnitude(scalar) == Magnitude(scalar[start..])
    {
      MagnitudeStep(scalar, start);
      start := start + 1;
    }
    var body: Bytes := [];
    if scalar[start] >= 128 { body := body + [0]; }
    body := body + scalar[start..];
    MagnitudeDone(scalar[start..]);
    assert body == IntegerBody(scalar);
    out := DerWrapped(INTEGER, body);
  }

  method RawSignatureToDer(raw: Bytes) returns (ok: bool, der: Bytes)
    ensures ok <==> |raw| == 64 && Valid(raw[..32]) && Valid(raw[32..])
    ensures der == if ok then Encode(raw[..32], raw[32..]) else []
  {
    ok, der := false, [];
    if |raw| != 64 { return; }
    ok := ScalarInRange(raw[..32]);
    if ok { ok := ScalarInRange(raw[32..]); }
    if !ok { return; }
    var body := EncodeInteger(raw[..32]);
    var second := EncodeInteger(raw[32..]);
    body := body + second;
    der := DerWrapped(SEQUENCE, body);
  }

  // ----- decoding

  /** The bytes of an integer node at offset, checked as far as the code checks them
      before it looks at the value. */
  predicate IntegerAt(der: Bytes, at: nat) {
    && at + 2 <= |der| && der[at] == INTEGER && 1 <= der[at + 1] <= 33 && at + 2 + der[at + 1] <= |der|
    && Minimal(der[at + 2..at + 2 + der[at + 1]])
  }

  function BodyAt(der: Bytes, at: nat): Bytes
    requires IntegerAt(der, at)
  {
    der[at + 2..at + 2 + der[at + 1]]
  }

  /** Without the zero that only keeps the sign bit clear. */
  function Stripped(b: Bytes): (m: Bytes)
    requires Minimal(b)
    ensures 1 <= |m| <= |b|
  {
    if |b| > 1 && b[0] == 0 then b[1..] else b
  }

  /** Right-aligned in 32 bytes. */
  function Aligned(m: Bytes): Scalar
    requires |m| <= 32
  {
    seq(32 - |m|, i => 0) + m
  }

  ghost predicate ScalarAt(der: Bytes, at: nat) {
    IntegerAt(der, at) && |Stripped(BodyAt(der, at))| <= 32 && Valid(Aligned(Stripped(BodyAt(der, at))))
  }

  ghost function ScalarOf(der: Bytes, at: nat): Scalar
    requires ScalarAt(der, at)
  {
    Aligned(Stripped(BodyAt(der, at)))
  }

  /** Where the node at offset ends. */
  ghost function Next(der: Bytes, at: nat): (next: nat)
    requires ScalarAt(der, at)
    ensures at + 2 < next <= |der|
  {
    at + 2 + der[at + 1]
  }

  ghost function Decode(der: Bytes): Option<(Scalar, Scalar)> {
    if 8 <= |der| <= 72 && der[0] == SEQUENCE && der[1] < 128 && 2 + der[1] == |der| && ScalarAt(der, 2)
       && ScalarAt(der, Next(der, 2)) && Next(der, Next(der, 2)) == |der| then
      Some((ScalarOf(der, 2), ScalarOf(der, Next(der, 2))))
    else None
  }

  // ----- the two are inverse

  lemma AlignedBack(s: Scalar)
    ensures Stripped(IntegerBody(s)) == Magnitude(s) && Aligned(Stripped(IntegerBody(s))) == s
  {
    IntegerBodyMinimal(s);
    var m := Magnitude(s);
    assert ([0] + m)[1..] == m;
  }

  lemma NodeAt(der: Bytes, at: nat, s: Scalar)
    requires at + |IntegerNode(s)| <= |der| && der[at..at + |IntegerNode(s)|] == IntegerNode(s)
    ensures IntegerAt(der, at) && BodyAt(der, at) == IntegerBody(s) && at + 2 + der[at + 1] == at + |IntegerNode(s)|
  {
    hide Magnitude, IntegerBody;
    IntegerBodyMinimal(s);
    var node, b := IntegerNode(s), IntegerBody(s);
    assert node == [INTEGER, |b|] + b;
    assert der[at] == der[at..at + |node|][0] && der[at + 1] == der[at..at + |node|][1];
    assert der[at + 2..at + 2 + |b|] == der[at..at + |node|][2..] == b;
  }

  lemma PairLayout(first: Bytes, second: Bytes)
    requires |first| + |second| < 128
    ensures var der := DerWrap(SEQUENCE, first + second);
            && |der| == 2 + |first| + |second| && der[0] == SEQUENCE && der[1] == |first| + |second|
            && der[2..2 + |first|] == first && der[2 + |first|..2 + |first| + |second|] == second
  {
    assert DerWrap(SEQUENCE, first + second) == [SEQUENCE, |first| + |second|] + (first + second);
  }

  lemma NodeSize(s: Scalar)
    ensures |IntegerNode(s)| == 2 + |IntegerBody(s)| <= 35
  {
    hide IntegerBody;
  }

  /** What was encoded is decoded again. */
  lemma DecodeEncode(r: Scalar, s: Scalar)
    requires Valid(r) && Valid(s)
    ensures Decode(Encode(r, s)) == Some((r, s))
  {
    var first, second := IntegerNode(r), IntegerNode(s);
    NodeSize(r);
    NodeSize(s);
    PairLayout(first, second);
    hide Magnitude, IntegerBody, IntegerAt, Aligned, Stripped, IntegerNode, DerWrap, Valid;
    NodeAt(Encode(r, s), 2, r);
    NodeAt(Encode(r, s), 2 + |first|, s);
    AlignedBack(r);
    AlignedBack(s);
  }

  /** A minimal body is the one the encoder makes of its number. */
  lemma BodyBack(b: Bytes)
    requires Minimal(b) && |Stripped(b)| <= 32
    ensures IntegerBody(Aligned(Stripped(b))) == b
  {
    hide Magnitude, IntegerBody;
    var m := Stripped(b);
    LeadingZeros(32 - |m|, m);
    assert BE(m) == BE(b);
    IntegerBodyMinimal(Aligned(m));
    MinimalUnique(IntegerBody(Aligned(m)), b);
  }

  lemma NodeBack(der: Bytes, at: nat)
    requires ScalarAt(der, at)
    ensures der[at..Next(der, at)] == IntegerNode(ScalarOf(der, at))
  {
    hide IntegerBody, Stripped, Aligned;
    var b := BodyAt(der, at);
    BodyBack(b);
    assert der[at..Next(der, at)] == [INTEGER, |b|] + b;
  }

  /** Every accepted string of bytes is the encoding of a valid pair: there is no other
      encoding of any pair. */
  lemma EncodeDecode(der: Bytes)
    requires Decode(der).Some?
    ensures var (r, s) := Decode(der).value; Valid(r) && Valid(s) && Encode(r, s) == der
  {
    hide IntegerAt, Stripped, Aligned, IntegerNode, Next, Valid;
    var second := Next(der, 2);
    NodeBack(der, 2);
    NodeBack(der, second);
    var first, last := der[2..second], der[second..];
    assert last == der[second..Next(der, second)];
    assert der == [SEQUENCE, |first| + |last|] + (first + last);
  }

  /** So the accepted strings and the valid pairs are in bijection. */
  lemma Bijection(a: Bytes, b: Bytes)
    requires Decode(a).Some? && Decode(a) == Decode(b)
    ensures a == b
  {
    EncodeDecode(a);
    EncodeDecode(b);
  }

  // ----- the parser

  const CLEAR: Bytes := seq(64, i => 0)

  method Clear(raw: array<Byte>)
    requires raw.Length == 64
    modifies raw
    ensures raw[..] == CLEAR
  {
    for i := 0 to 64
      invariant forall j | 0 <= j < i :: raw[j] == 0
    {
      raw[i] := 0;
    }
  }

  /** One integer at offset; on success it is written to its half of raw. Only a number
      out of range clears what was there. */
  method ParseInteger(der: Bytes, at: nat, raw: array<Byte>, part: nat) returns (ok: bool, next: nat)
    requires raw.Length == 64 && part < 2 && at <= |der|
    modifies raw
    ensures ok <==> ScalarAt(der, at)
    ensures ok ==> next == Next(der, at)
    ensures ok ==> raw[..] == Patched(old(raw[..]), 32 * part, ScalarOf(der, at))
    ensures !ok ==> raw[..] == old(raw[..]) || raw[..] == CLEAR
  {
    hide Valid, CLEAR;
    ok, next := false, at;
    if at + 2 > |der| || der[at] != INTEGER { return; }
    var n := der[at + 1];
    if n == 0 || n > 33 || at + 2 + n > |der| { return; }
    var bytes := der[at + 2..at + 2 + n];
    if bytes[0] >= 128 { return; }
    if n > 1 && bytes[0] == 0 && bytes[1] < 128 { return; }
    var magnitude := if n > 1 && bytes[0] == 0 then bytes[1..] else bytes;
    if |magnitude| == 0 || |magnitude| > 32 { return; }
    var scalar := Aligned(magnitude);
    ok := ScalarInRange(scalar);
    if !ok {
      Clear(raw);
      return;
    }
    Copy(raw, 32 * part, scalar);
    next := at + 2 + n;
  }

  /** Accepts exactly what Decode describes. A refusal may leave the first scalar in the
      first half of raw; the second half is then clear. */
  method DerSignatureToRaw(der: Bytes, raw: array<Byte>) returns (ok: bool)
    requires raw.Length == 64
    modifies raw
    ensures ok <==> Decode(der).Some?
    ensures ok ==> raw[..] == Decode(der).value.0 + Decode(der).value.1
    ensures !ok && 8 <= |der| <= 72 ==> raw[32..] == CLEAR[32..]
  {
    hide ScalarAt, ScalarOf, Next;
    if |der| < 8 || |der| > 72 { return false; }
    Clear(raw);
    if der[0] != SEQUENCE || der[1] >= 128 || 2 + der[1] != |der| { return false; }
    var offset := 2;
    for part := 0 to 2
      invariant offset <= |der|
      invariant part == 0 ==> offset == 2 && raw[..] == CLEAR
      invariant part == 1 ==>
          ScalarAt(der, 2) && offset == Next(der, 2)
          && raw[..] == Patched(CLEAR, 0, ScalarOf(der, 2))
      invariant part == 2 ==> ScalarAt(der, 2) && ScalarAt(der, Next(der, 2)) && offset == Next(der, Next(der, 2))
      invariant part == 2 ==> raw[..] == ScalarOf(der, 2) + ScalarOf(der, Next(der, 2))
    {
      ok, offset := ParseInteger(der, offset, raw, part);
      if !ok { return; }
    }
    ok := offset == |der|;
    if !ok { Clear(raw); }
  }
}

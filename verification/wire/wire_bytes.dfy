/** Little-endian integers: the functions that say what the bytes are, and the loops that
    write and read them. */
module WireBytes {
  datatype Option<T> = None | Some(value: T)

  type Byte = b: int | 0 <= b < 256 witness 0
  type Bytes = seq<Byte>
  type Digest = d: Bytes | |d| == 32 witness seq(32, i => 0)
  type U16 = n: nat | n < 0x1_0000
  type U32 = n: nat | n < 0x1_0000_0000
  type U64 = n: nat | n < 0x1_0000_0000_0000_0000

  function Bit(b: bool): nat { if b then 1 else 0 }

  /** 256 to the k. */
  function Power(k: nat): (p: nat)
    ensures p > 0
  {
    if k == 0 then 1 else 256 * Power(k - 1)
  }

  /** The k low bytes of n, the lowest first. */
  function LE(n: nat, k: nat): (b: Bytes)
    ensures |b| == k
  {
    if k == 0 then [] else [n % 256] + LE(n / 256, k - 1)
  }

  function Value(b: Bytes): nat {
    if b == [] then 0 else b[0] + 256 * Value(b[1..])
  }

  lemma {:induction false} ValueLE(n: nat, k: nat)
    requires n < Power(k)
    ensures Value(LE(n, k)) == n
  {
    if k > 0 {
      ValueLE(n / 256, k - 1);
      assert LE(n, k)[1..] == LE(n / 256, k - 1);
    }
  }

  lemma {:induction false} ValueBound(b: Bytes)
    ensures Value(b) < Power(|b|)
  {
    if b != [] { ValueBound(b[1..]); }
  }

  lemma {:induction false} LEValue(b: Bytes)
    ensures LE(Value(b), |b|) == b
  {
    if b != [] {
      LEValue(b[1..]);
      assert b == [b[0]] + b[1..];
    }
  }

  lemma {:induction false} ValueAppend(b: Bytes, x: Byte)
    ensures Value(b + [x]) == Value(b) + x * Power(|b|)
  {
    if b == [] {
      assert b + [x] == [x];
      assert [x][1..] == [];
    } else {
      ValueAppend(b[1..], x);
      assert (b + [x])[1..] == b[1..] + [x];
      assert 256 * (x * Power(|b| - 1)) == x * Power(|b|);
    }
  }

  lemma {:induction false} LEAt(n: nat, k: nat, i: nat)
    requires i < k
    ensures LE(n, k)[i] == (n / Power(i)) % 256
  {
    if i > 0 {
      LEAt(n / 256, k - 1, i - 1);
      DivideTwice(n, Power(i - 1));
    }
  }

  lemma DivideTwice(n: nat, p: nat)
    requires p > 0
    ensures (n / 256) / p == n / (256 * p)
  {
    var q, r := n / 256, n % 256;
    var s, t := q / p, q % p;
    assert n == 256 * (s * p + t) + r;
    assert 256 * (s * p) == s * (256 * p);
    assert 256 * t + r < 256 * p;
    DivideExactly(n, 256 * p, s, 256 * t + r);
  }

  lemma DivideExactly(n: nat, d: nat, q: nat, r: nat)
    requires d > 0 && r < d && n == q * d + r
    ensures n / d == q
  {
    var e := n / d - q;
    assert (n / d) * d - q * d == e * d;
    assert e * d == r - n % d;
    Multiple(e, d);
  }

  lemma Multiple(e: int, d: int)
    requires d > 0
    ensures (e > 0 ==> e * d >= d) && (e < 0 ==> e * d <= -d)
  {
  }

  /** b with the bytes s written over it from index at. */
  function Patched(b: Bytes, at: nat, s: Bytes): (r: Bytes)
    requires at + |s| <= |b|
    ensures |r| == |b|
  {
    b[..at] + s + b[at + |s|..]
  }

  /** Writes the k low bytes of n at index at. */
  method Put(a: array<Byte>, at: nat, n: nat, k: nat)
    requires at + k <= a.Length
    modifies a
    ensures a[..] == Patched(old(a[..]), at, LE(n, k))
  {
    for i := 0 to k
      invariant a[..] == Patched(old(a[..]), at, LE(n, k)[..i])
    {
      a[at + i] := (n / Power(i)) % 256;
      LEAt(n, k, i);
      assert LE(n, k)[..i + 1] == LE(n, k)[..i] + [LE(n, k)[i]];
    }
    assert LE(n, k)[..k] == LE(n, k);
  }

  /** Reads k bytes at index at as one integer. The bits or-ed in are disjoint from
      those already there, so adding them is the same. */
  method Get(b: Bytes, at: nat, k: nat) returns (n: nat)
    requires at + k <= |b|
    ensures n == Value(b[at..at + k]) && n < Power(k)
  {
    n := 0;
    for i := 0 to k
      invariant n == Value(b[at..at + i])
    {
      ValueAppend(b[at..at + i], b[at + i]);
      assert b[at..at + i + 1] == b[at..at + i] + [b[at + i]];
      n := n + b[at + i] * Power(i);
    }
    ValueBound(b[at..at + k]);
  }

  /** Copies s over a from index at. */
  method Copy(a: array<Byte>, at: nat, s: Bytes)
    requires at + |s| <= a.Length
    modifies a
    ensures a[..] == Patched(old(a[..]), at, s)
  {
    for i := 0 to |s|
      invariant forall k | 0 <= k < a.Length :: a[k] == if at <= k < at + i then s[k - at] else old(a[k])
    {
      a[at + i] := s[i];
    }
    assert a[..] == Patched(old(a[..]), at, s);
  }

  /** Copies the bytes to the output and moves the offset. */
  method Add(output: array<Byte>, offset: nat, bytes: Bytes) returns (next: nat)
    requires offset + |bytes| <= output.Length
    modifies output
    ensures next == offset + |bytes|
    ensures output[..next] == old(output[..offset]) + bytes
    ensures forall i | next <= i < output.Length :: output[i] == old(output[i])
  {
    Copy(output, offset, bytes);
    next := offset + |bytes|;
  }

  /** All the bytes are zero. */
  method Zero(b: Bytes) returns (zero: bool)
    ensures zero <==> b == seq(|b|, i => 0)
  {
    for i := 0 to |b|
      invariant forall j | 0 <= j < i :: b[j] == 0
    {
      if b[i] != 0 {
        assert b != seq(|b|, i => 0) by { assert seq(|b|, i => 0)[i] == 0; }
        return false;
      }
    }
    return true;
  }

  // ----- several integers of one width

  predicate Fits(ws: seq<nat>, k: nat) {
    forall i | 0 <= i < |ws| :: ws[i] < Power(k)
  }

  /** n integers of k bytes. */
  function Size(n: nat, k: nat): nat {
    if n == 0 then 0 else k + Size(n - 1, k)
  }

  lemma {:induction false} SizeProduct(n: nat, k: nat)
    ensures Size(n, k) == n * k
  {
    if n > 0 { SizeProduct(n - 1, k); }
  }

  function Pack(ws: seq<nat>, k: nat): (b: Bytes)
    ensures |b| == Size(|ws|, k)
  {
    if ws == [] then [] else LE(ws[0], k) + Pack(ws[1..], k)
  }

  /** The n integers of width k that b holds. */
  function Unpack(b: Bytes, k: nat, n: nat): (ws: seq<nat>)
    requires |b| == Size(n, k)
    ensures |ws| == n
  {
    if n == 0 then [] else [Value(b[..k])] + Unpack(b[k..], k, n - 1)
  }

  lemma {:induction false} UnpackPack(ws: seq<nat>, k: nat)
    requires Fits(ws, k)
    ensures Unpack(Pack(ws, k), k, |ws|) == ws
  {
    if ws != [] {
      UnpackPack(ws[1..], k);
      ValueLE(ws[0], k);
      assert Pack(ws, k)[..k] == LE(ws[0], k) && Pack(ws, k)[k..] == Pack(ws[1..], k);
    }
  }

  lemma {:induction false} PackUnpack(b: Bytes, k: nat, n: nat)
    requires |b| == Size(n, k)
    ensures Pack(Unpack(b, k, n), k) == b && Fits(Unpack(b, k, n), k)
  {
    if n > 0 {
      PackUnpack(b[k..], k, n - 1);
      LEValue(b[..k]);
      ValueBound(b[..k]);
      assert b == b[..k] + b[k..];
    }
  }

  lemma Associative<T>(a: seq<T>, b: seq<T>, c: seq<T>)
    ensures a + (b + c) == (a + b) + c
  {
  }

  lemma {:induction false} PackAppend(ws: seq<nat>, vs: seq<nat>, k: nat)
    ensures Pack(ws + vs, k) == Pack(ws, k) + Pack(vs, k)
  {
    if ws == [] {
      assert ws + vs == vs;
    } else {
      hide LE;
      PackAppend(ws[1..], vs, k);
      assert (ws + vs)[1..] == ws[1..] + vs;
      Associative(LE(ws[0], k), Pack(ws[1..], k), Pack(vs, k));
    }
  }

  /** Writing two stretches one after the other is writing their concatenation. */
  lemma PatchTwice(b: Bytes, at: nat, s: Bytes, t: Bytes)
    requires at + |s| + |t| <= |b|
    ensures Patched(Patched(b, at, s), at + |s|, t) == Patched(b, at, s + t)
  {
  }

  /** Writes the integers ws at index at, each in k bytes, and moves on. */
  method PutAll(a: array<Byte>, at: nat, ws: seq<nat>, k: nat) returns (next: nat)
    requires at + Size(|ws|, k) <= a.Length
    modifies a
    ensures next == at + Size(|ws|, k)
    ensures a[..] == Patched(old(a[..]), at, Pack(ws, k))
  {
    hide Patched, LE;
    next := at;
    ghost var was := a[..];
    for i := 0 to |ws|
      invariant next + Size(|ws| - i, k) == at + Size(|ws|, k)
      invariant Patched(a[..], next, Pack(ws[i..], k)) == Patched(was, at, Pack(ws, k))
    {
      ghost var before := a[..];
      Put(a, next, ws[i], k);
      assert ws[i..][1..] == ws[i + 1..];
      PatchTwice(before, next, LE(ws[i], k), Pack(ws[i + 1..], k));
      next := next + k;
    }
    PatchNothing(a[..], next);
  }

  lemma PatchNothing(b: Bytes, at: nat)
    requires at <= |b|
    ensures Patched(b, at, []) == b
  {
  }

  /** Reads n integers of k bytes each at index at, and moves on. */
  method GetAll(b: Bytes, at: nat, k: nat, n: nat) returns (ws: seq<nat>, next: nat)
    requires at + Size(n, k) <= |b|
    ensures next == at + Size(n, k)
    ensures ws == Unpack(b[at..next], k, n) && Fits(ws, k)
  {
    ws, next := [], at;
    ghost var end := at + Size(n, k);
    for i := 0 to n
      invariant next + Size(n - i, k) == end && |ws| == i
      invariant ws + Unpack(b[next..end], k, n - i) == Unpack(b[at..end], k, n) && Fits(ws, k)
    {
      var w := Get(b, next, k);
      assert b[next..end][..k] == b[next..next + k] && b[next..end][k..] == b[next + k..end];
      ws, next := ws + [w], next + k;
    }
  }
}

/** Wrapping and unwrapping, key generation, signing and verification over the caller's
    memory: what each call may write, what it wipes, and what it never touches. */
module NativeCalls {
  import opened WireBytes
  import opened NativeMemory

  const OK := 0
  const INVALID_INPUT := 1
  const ABI_MISMATCH := 2
  const RESOURCE_LIMIT := 3
  const UNAVAILABLE := 4
  const DATA_CORRUPT := 5
  const VERIFICATION_REJECTED := 8

  const ABI_VERSION := 3
  const MAX_PKCS8 := 256
  const POINT_BYTES := 65
  const DIGEST_BYTES := 32
  const RAW_BYTES := 64

  // ----- wrapping and unwrapping

  /** The caller's three places of a wrap or unwrap. */
  datatype Places = Places(input: Region, output: Region, count: U64) {
    function Count(): Region { CountAt(count) }

    /** The input is no span, or shares storage with an output. */
    predicate Refused() {
      !input.Span() || Meets(input, output) || Meets(input, Count())
    }

    predicate OutputCountAlias() { CountValid(count) && Meets(output, Count()) }

    /** Is the count wiped by a failing call? */
    predicate CountDue() {
      if Refused() then CountValid(count) && !Meets(input, Count()) && !OutputCountAlias()
      else CountValid(count) && !Meets(output, Count())
    }

    /** Is the output wiped by a failing call? */
    predicate OutputDue() {
      if Refused() then output.Span() && !OutputCountAlias() && !Meets(input, output)
      else CountValid(count) && !Meets(output, Count()) && output.Span()
    }

    function Wipes(): seq<Wipe> { [Wipe(CountDue(), Count()), Wipe(OutputDue(), output)] }

    /** Everything is a span, the count is aligned, and nothing is shared. */
    predicate Sound() {
      && input.Span() && output.Span() && CountValid(count)
      && !Overlaps(input, output) && !Overlaps(input, Count()) && !Overlaps(output, Count())
    }
  }

  /** Sound places are wiped completely by any failure, and no other places can succeed. */
  lemma SoundIsWiped(p: Places)
    ensures p.Sound() <==> !p.Refused() && p.CountDue() && p.OutputDue()
  {
  }

  /** An output span is wiped by a failure, unless it shares storage with the input or the
      count, or the count is unusable while nothing is wrong with the input. */
  lemma OutputDueExactly(p: Places)
    ensures p.OutputDue() <==>
      && p.output.Span() && !Meets(p.input, p.output)
      && (if CountValid(p.count) then !Overlaps(p.output, p.Count()) else p.Refused())
  {
  }

  /** An unaligned count leaves an output as it was, although nothing is shared. */
  lemma UnalignedKeepsOutput() returns (p: Places)
    ensures p.input.Span() && p.output.Span() && p.Count().Span()
    ensures !Overlaps(p.input, p.output) && !Overlaps(p.input, p.Count()) && !Overlaps(p.output, p.Count())
    ensures !p.OutputDue()
  {
    p := Places(Region(16, 8), Region(32, 8), 49);
  }

  /** Whatever is wiped is not the input. */
  lemma InputSpared(m: Cells, n: Cells, p: Places)
    requires WipedOnly(m, n, p.Wipes()) && p.input.Span()
    ensures Same(m, n, p.input)
  {
    forall w | w in p.Wipes() && w.due ensures !Overlaps(w.region, p.input) {
      assert w == p.Wipes()[0] || w == p.Wipes()[1];
    }
    WipedMeans(m, n, p.Wipes(), p.input);
  }

  /** The result lies at the start of the output, zeros behind it, its length in the count. */
  ghost predicate Delivered(m: Cells, n: Cells, p: Places, result: Bytes) {
    && 0 < |result| <= p.output.size
    && Stores(n, p.output.at, result) && Stores(n, p.count, LE(|result|, 8))
    && (forall a: nat | p.output.at + |result| <= a < p.output.at + p.output.size :: n(a) == 0)
    && (forall a: nat | !p.output.Has(a) && !p.Count().Has(a) :: n(a) == m(a))
  }

  /** The wipes of a call that was refused for its input. */
  method WipeRefused(memory: Memory, p: Places)
    requires p.Refused()
    modifies memory
    ensures WipedOnly(old(memory.cells), memory.cells, p.Wipes())
  {
    ghost var start := memory.cells;
    var valid := CountValid(p.count);
    var outputCount := p.output.Span() && valid && Overlaps(p.output, p.Count());
    var inputCount := p.input.Span() && valid && Overlaps(p.input, p.Count());
    NothingWiped(start);
    memory.ZeroIf(valid && !inputCount && !outputCount, p.Count(), start, []);
    ghost var first := [Wipe(valid && !inputCount && !outputCount, p.Count())];
    assert [] + first == first;
    memory.ZeroIf(p.output.Span() && !outputCount && (!p.input.Span() || !Overlaps(p.input, p.output)), p.output,
        start, first);
    assert first + [Wipe(p.OutputDue(), p.output)] == p.Wipes();
  }

  /** Checks and wipes the outputs of a call whose input is fine. */
  method Prepare(memory: Memory, p: Places, version: nat) returns (status: int)
    requires !p.Refused()
    modifies memory
    ensures WipedOnly(old(memory.cells), memory.cells, p.Wipes())
    ensures status == if !p.Sound() then INVALID_INPUT else if version in {1, 2, ABI_VERSION} then OK else ABI_MISMATCH
  {
    ghost var start := memory.cells;
    var usable := CountValid(p.count) && !(p.output.Span() && Overlaps(p.output, p.Count()));
    NothingWiped(start);
    memory.ZeroIf(usable, p.Count(), start, []);
    ghost var first := [Wipe(usable, p.Count())];
    assert [] + first == first;
    memory.ZeroIf(usable && p.output.Span(), p.output, start, first);
    assert first + [Wipe(p.OutputDue(), p.output)] == p.Wipes();
    if !usable || !p.output.Span() { return INVALID_INPUT; }
    status := if version in {1, 2, ABI_VERSION} then OK else ABI_MISMATCH;
  }

  /** Wraps or unwraps; answer is what the system gave back, if it succeeded. The input is
      never changed. A failure wipes exactly what is due; a success changes nothing but the
      output and the count. */
  method Transform(memory: Memory, version: nat, p: Places, decrypt: bool, answer: Option<Bytes>) returns (status: int)
    modifies memory
    ensures p.input.Span() ==> Same(old(memory.cells), memory.cells, p.input)
    ensures status != OK ==> WipedOnly(old(memory.cells), memory.cells, p.Wipes())
    ensures status == OK ==> p.Sound() && answer.Some? && Delivered(old(memory.cells), memory.cells, p, answer.value)
    ensures status == OK <==> p.Sound() && version in {1, 2, ABI_VERSION} && answer.Some?
                              && 0 < |answer.value| <= p.output.size
  {
    hide WipedOnly, Wiped, LE;
    ghost var start := memory.cells;
    if p.Refused() {
      WipeRefused(memory, p);
      if p.input.Span() { InputSpared(start, memory.cells, p); }
      return INVALID_INPUT;
    }
    status := Prepare(memory, p, version);
    InputSpared(start, memory.cells, p);
    if status != OK { return; }
    if answer.None? { return if decrypt then DATA_CORRUPT else UNAVAILABLE; }
    var result := answer.value;
    if result == [] { return DATA_CORRUPT; }
    if |result| > p.output.size { return RESOURCE_LIMIT; }
    Deliver(memory, p, result, start);
  }

  method Deliver(memory: Memory, p: Places, result: Bytes, ghost start: Cells)
    requires p.Sound() && 0 < |result| <= p.output.size && WipedOnly(start, memory.cells, p.Wipes())
    modifies memory
    ensures Delivered(start, memory.cells, p, result) && Same(start, memory.cells, p.input)
  {
    hide LE;
    ghost var wiped := memory.cells;
    WipedMeans(start, wiped, p.Wipes(), p.output);
    OthersKept(start, wiped, p);
    memory.Put(p.output.at, result);
    memory.Put(p.count, LE(|result|, 8));
  }

  lemma OthersKept(m: Cells, n: Cells, p: Places)
    requires p.Sound() && WipedOnly(m, n, p.Wipes())
    ensures Zeroed(n, p.output) && forall a: nat | !p.output.Has(a) && !p.Count().Has(a) :: n(a) == m(a)
  {
    WipedMeans(m, n, p.Wipes(), p.output);
    assert p.Wipes()[1] == Wipe(true, p.output);
    forall a: nat | !p.output.Has(a) && !p.Count().Has(a) ensures !Wiped(p.Wipes(), a) {
      forall w | w in p.Wipes() ensures !w.region.Has(a) { assert w == p.Wipes()[0] || w == p.Wipes()[1]; }
    }
  }

  // ----- key generation

  /** The caller's four places of a key generation. */
  datatype KeyPlaces = KeyPlaces(key: Region, keyCount: U64, point: Region, pointCount: U64) {
    predicate KeyValid() { key.Span() && key.size <= MAX_PKCS8 }

    predicate PointValid() { point.Span() && point.size == POINT_BYTES }

    predicate KeyCountAlias() {
      CountValid(keyCount) && (Meets(CountAt(keyCount), key) || Meets(CountAt(keyCount), point)
                               || (CountValid(pointCount) && Overlaps(CountAt(keyCount), CountAt(pointCount))))
    }

    predicate PointCountAlias() {
      CountValid(pointCount) && (Meets(CountAt(pointCount), key) || Meets(CountAt(pointCount), point)
                                 || (CountValid(keyCount) && Overlaps(CountAt(pointCount), CountAt(keyCount))))
    }

    predicate OutputsAlias() { KeyValid() && PointValid() && Overlaps(key, point) }

    /** Outside all four places. */
    predicate Apart(a: nat) {
      !key.Has(a) && !point.Has(a) && !CountAt(keyCount).Has(a) && !CountAt(pointCount).Has(a)
    }

    predicate Unmixed() { !OutputsAlias() && !KeyCountAlias() && !PointCountAlias() }

    predicate Sound() { KeyValid() && PointValid() && CountValid(keyCount) && CountValid(pointCount) && Unmixed() }

    function Wipes(): seq<Wipe> {
      [Wipe(CountValid(keyCount) && !KeyCountAlias(), CountAt(keyCount)),
       Wipe(CountValid(pointCount) && !PointCountAlias(), CountAt(pointCount)),
       Wipe(KeyValid() && Unmixed(), key), Wipe(PointValid() && Unmixed(), point)]
    }
  }

  /** A pair of well-sized, disjoint outputs with disjoint aligned counts is sound, and
      nothing else; a failure then leaves no byte of any of the four. */
  lemma SoundKeyIsWiped(p: KeyPlaces, m: Cells, n: Cells)
    requires WipedOnly(m, n, p.Wipes()) && p.Sound()
    ensures Zeroed(n, p.key) && Zeroed(n, p.point) && Zeroed(n, CountAt(p.keyCount)) && Zeroed(n, CountAt(p.pointCount))
    ensures forall a: nat | p.Apart(a) :: n(a) == m(a)
  {
    var wipes := p.Wipes();
    assert wipes[0] == Wipe(true, CountAt(p.keyCount)) && wipes[1] == Wipe(true, CountAt(p.pointCount));
    assert wipes[2] == Wipe(true, p.key) && wipes[3] == Wipe(true, p.point);
    forall w | w in wipes { WipedMeans(m, n, wipes, w.region); }
    forall a: nat | p.Apart(a) ensures n(a) == m(a) { ApartIsKept(p, a); }
  }

  lemma ApartIsKept(p: KeyPlaces, a: nat)
    requires p.Apart(a)
    ensures !Wiped(p.Wipes(), a)
  {
    hide KeyPlaces.Unmixed, KeyPlaces.KeyCountAlias, KeyPlaces.PointCountAlias, KeyPlaces.KeyValid,
        KeyPlaces.PointValid;
    var wipes := p.Wipes();
    forall w | w in wipes ensures !w.region.Has(a) {
      assert w == wipes[0] || w == wipes[1] || w == wipes[2] || w == wipes[3];
    }
  }

  /** A key and a point were delivered: their lengths in the counts, and nothing outside
      the four places changed. */
  ghost predicate KeyDelivered(m: Cells, n: Cells, p: KeyPlaces, length: nat) {
    && 0 < length <= p.key.size
    && Stores(n, p.keyCount, LE(length, 8)) && Stores(n, p.pointCount, LE(POINT_BYTES, 8))
    && forall a: nat | p.Apart(a) :: n(a) == m(a)
  }

  /** Wipes what can be wiped of the four places. */
  method WipeKey(memory: Memory, p: KeyPlaces)
    modifies memory
    ensures WipedOnly(old(memory.cells), memory.cells, p.Wipes())
  {
    hide WipedOnly;
    ghost var start, wipes := memory.cells, p.Wipes();
    NothingWiped(start);
    assert wipes[..0] == [];
    memory.ZeroIf(CountValid(p.keyCount) && !p.KeyCountAlias(), CountAt(p.keyCount), start, wipes[..0]);
    assert wipes[..0] + [wipes[0]] == wipes[..1];
    memory.ZeroIf(CountValid(p.pointCount) && !p.PointCountAlias(), CountAt(p.pointCount), start, wipes[..1]);
    assert wipes[..1] + [wipes[1]] == wipes[..2];
    memory.ZeroIf(p.KeyValid() && p.Unmixed(), p.key, start, wipes[..2]);
    assert wipes[..2] + [wipes[2]] == wipes[..3];
    memory.ZeroIf(p.PointValid() && p.Unmixed(), p.point, start, wipes[..3]);
    assert wipes[..3] + [wipes[3]] == wipes;
  }

  /** Generates a key. The generator may write anything into the two outputs; status and
      length are what it reports. A failure wipes exactly what can be wiped, whatever the
      generator wrote: no partial key is left. */
  method GenerateKey(memory: Memory, version: nat, p: KeyPlaces, reported: int, length: nat) returns (status: int)
    modifies memory
    ensures status != OK ==> WipedOnly(old(memory.cells), memory.cells, p.Wipes())
    ensures status == OK ==> KeyDelivered(old(memory.cells), memory.cells, p, length)
    ensures status == OK <==> p.Sound() && version == ABI_VERSION && reported == OK && 0 < length <= p.key.size
  {
    hide WipedOnly, Wiped, LE, Stores, Zeroed, KeyPlaces.Wipes;
    ghost var start := memory.cells;
    WipeKey(memory, p);
    if !p.Sound() { return INVALID_INPUT; }
    if version != ABI_VERSION { return ABI_MISMATCH; }
    status := Generate(memory, p, reported, length, start);
  }

  method Generate(memory: Memory, p: KeyPlaces, reported: int, length: nat, ghost start: Cells) returns (status: int)
    requires p.Sound() && WipedOnly(start, memory.cells, p.Wipes())
    modifies memory
    ensures status != OK ==> WipedOnly(start, memory.cells, p.Wipes())
    ensures status == OK ==> KeyDelivered(start, memory.cells, p, length)
    ensures status == OK <==> reported == OK && 0 < length <= p.key.size
  {
    hide LE;
    ghost var wiped := memory.cells;
    SoundKeyIsWiped(p, start, wiped);
    memory.Zero(p.key);
    memory.Zero(p.point);
    memory.Fill(p.key);
    memory.Fill(p.point);
    if reported != OK || length == 0 || length > p.key.size {
      memory.Zero(p.key);
      memory.Zero(p.point);
      assert forall a: nat :: memory.cells(a) == wiped(a);
      return if reported == OK then DATA_CORRUPT else reported;
    }
    memory.Put(p.keyCount, LE(length, 8));
    memory.Put(p.pointCount, LE(POINT_BYTES, 8));
    status := OK;
  }

  // ----- signing and verifying

  /** The caller's places of a signature. */
  datatype SignPlaces = SignPlaces(key: Region, point: Region, digest: Region, signature: Region, count: U64) {
    predicate CountAlias() {
      CountValid(count) && (Meets(CountAt(count), key) || Meets(CountAt(count), point)
                            || Meets(CountAt(count), digest) || Meets(CountAt(count), signature))
    }

    predicate OutputAlias() {
      Meets(signature, key) || Meets(signature, point) || Meets(signature, digest) || CountAlias()
    }

    predicate OutputValid() { signature.Span() && signature.size == RAW_BYTES }

    predicate Sound() {
      && key.Span() && key.size <= MAX_PKCS8 && point.Span() && point.size == POINT_BYTES
      && digest.Span() && digest.size == DIGEST_BYTES && OutputValid() && CountValid(count)
      && !CountAlias() && !OutputAlias() && !Meets(key, point) && !Meets(key, digest) && !Meets(point, digest)
    }

    function Wipes(): seq<Wipe> {
      [Wipe(CountValid(count) && !CountAlias(), CountAt(count)), Wipe(OutputValid() && !OutputAlias(), signature)]
    }
  }

  /** The inputs of a signature are not among what is wiped. */
  lemma SignInputsSpared(m: Cells, n: Cells, p: SignPlaces, r: Region)
    requires WipedOnly(m, n, p.Wipes()) && r.Span() && r in {p.key, p.point, p.digest}
    ensures Same(m, n, r)
  {
    forall w | w in p.Wipes() && w.due ensures !Overlaps(w.region, r) {
      assert w == p.Wipes()[0] || w == p.Wipes()[1];
    }
    WipedMeans(m, n, p.Wipes(), r);
  }

  ghost predicate InputsKept(m: Cells, n: Cells, p: SignPlaces) {
    && (p.key.Span() ==> Same(m, n, p.key)) && (p.point.Span() ==> Same(m, n, p.point))
    && (p.digest.Span() ==> Same(m, n, p.digest))
  }

  /** Signs a digest. Key, point and digest are never changed; a failure wipes exactly what
      can be wiped, so that no partial signature is left; a success changes nothing but the
      signature and its count. */
  method SignDigest(memory: Memory, version: nat, p: SignPlaces, reported: int) returns (status: int)
    modifies memory
    ensures InputsKept(old(memory.cells), memory.cells, p)
    ensures status != OK ==> WipedOnly(old(memory.cells), memory.cells, p.Wipes())
    ensures status == OK <==> p.Sound() && version == ABI_VERSION && reported == OK
    ensures status == OK ==>
      && Stores(memory.cells, p.count, LE(RAW_BYTES, 8))
      && forall a: nat | !p.signature.Has(a) && !CountAt(p.count).Has(a) :: memory.cells(a) == old(memory.cells)(a)
  {
    hide WipedOnly, Wiped, LE, Stores, Zeroed;
    ghost var start, wipes := memory.cells, p.Wipes();
    NothingWiped(start);
    assert wipes[..0] == [];
    memory.ZeroIf(CountValid(p.count) && !p.CountAlias(), CountAt(p.count), start, wipes[..0]);
    assert wipes[..0] + [wipes[0]] == wipes[..1];
    memory.ZeroIf(p.OutputValid() && !p.OutputAlias(), p.signature, start, wipes[..1]);
    assert wipes[..1] + [wipes[1]] == wipes;
    AllSpared(start, memory.cells, p);
    if !p.Sound() { return INVALID_INPUT; }
    if version != ABI_VERSION { return ABI_MISMATCH; }
    status := Sign(memory, p, reported, start);
  }

  lemma AllSpared(m: Cells, n: Cells, p: SignPlaces)
    requires WipedOnly(m, n, p.Wipes())
    ensures InputsKept(m, n, p)
  {
    if p.key.Span() { SignInputsSpared(m, n, p, p.key); }
    if p.point.Span() { SignInputsSpared(m, n, p, p.point); }
    if p.digest.Span() { SignInputsSpared(m, n, p, p.digest); }
  }

  method Sign(memory: Memory, p: SignPlaces, reported: int, ghost start: Cells) returns (status: int)
    requires p.Sound() && WipedOnly(start, memory.cells, p.Wipes()) && InputsKept(start, memory.cells, p)
    modifies memory
    ensures InputsKept(start, memory.cells, p) && status == reported
    ensures status != OK ==> WipedOnly(start, memory.cells, p.Wipes())
    ensures status == OK ==>
      && Stores(memory.cells, p.count, LE(RAW_BYTES, 8))
      && forall a: nat | !p.signature.Has(a) && !CountAt(p.count).Has(a) :: memory.cells(a) == start(a)
  {
    hide LE;
    ghost var wiped := memory.cells;
    SignOthersKept(start, wiped, p);
    memory.Fill(p.signature);
    status := reported;
    if status != OK {
      memory.Zero(p.signature);
      assert forall a: nat :: memory.cells(a) == wiped(a);
      return;
    }
    memory.Put(p.count, LE(RAW_BYTES, 8));
  }

  lemma SignOthersKept(m: Cells, n: Cells, p: SignPlaces)
    requires p.Sound() && WipedOnly(m, n, p.Wipes())
    ensures Zeroed(n, p.signature) && forall a: nat | !p.signature.Has(a) && !CountAt(p.count).Has(a) :: n(a) == m(a)
  {
    var wipes := p.Wipes();
    assert wipes[1] == Wipe(true, p.signature);
    WipedMeans(m, n, wipes, p.signature);
    forall a: nat | !p.signature.Has(a) && !CountAt(p.count).Has(a) ensures !Wiped(wipes, a) {
      forall w | w in wipes ensures !w.region.Has(a) { assert w == wipes[0] || w == wipes[1]; }
    }
  }

  /** Verifies a signature: only the verifier's own yes is a yes, and an answer it may not
      give is no answer. */
  function VerifyDigest(version: nat, point: Region, digest: Region, signature: Region, answer: int): (status: int)
    ensures status in {OK, INVALID_INPUT, ABI_MISMATCH, UNAVAILABLE, DATA_CORRUPT, VERIFICATION_REJECTED}
    ensures status == OK ==>
      && answer == OK && version == ABI_VERSION
      && point.Span() && point.size == POINT_BYTES && digest.Span() && digest.size == DIGEST_BYTES
      && signature.Span() && signature.size == RAW_BYTES
      && !Overlaps(point, digest) && !Overlaps(point, signature) && !Overlaps(digest, signature)
  {
    if version != ABI_VERSION then ABI_MISMATCH
    else if !point.Span() || point.size != POINT_BYTES || !digest.Span() || digest.size != DIGEST_BYTES
            || !signature.Span() || signature.size != RAW_BYTES then INVALID_INPUT
    else if Overlaps(point, digest) || Overlaps(point, signature) || Overlaps(digest, signature) then INVALID_INPUT
    else if answer in {OK, VERIFICATION_REJECTED, DATA_CORRUPT, UNAVAILABLE} then answer
    else DATA_CORRUPT
  }
}

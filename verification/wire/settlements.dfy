/** The crypto ledger and the native observation as one 768-byte settlement block: 162
    counters of 32 bits, eight 64-bit values, flags, status and the three diagnostic
    names, four zero bytes, and a digest of all that. */
module Settlements {
  import opened WireBytes
  import opened DiagnosticNames

  /** The digest is any deterministic function; nothing here depends on which. */
  type Hash = Bytes -> Digest

  datatype CallCounts = CallCounts(attempted: U32, returned: U32, accepted: U32, settled: U32, unknown: U32,
      returnedFailure: U32)

  datatype Counters = Counters(
    attemptedSteps: U32, returnedSteps: U32, completedSteps: U32, attempted: U32, returned: U32,
    completed: U32, successful: U32, accepted: U32, abiReserved: U32, generateReserved: U32,
    encodeSignReserved: U32, verifyReserved: U32, verifyPositiveReserved: U32, verifyNegativeReserved: U32,
    policyReserved: U32, budgetRejections: U32, abiAttemptedTotal: U32, allowedSymbolResolutions: U32,
    forbiddenSymbolAttempts: U32, buffersAllocated: U32, buffersLive: U32, releasesAttempted: U32,
    releasesSucceeded: U32, releasesUnknown: U32, duplicateReleaseAttempts: U32, observationAttempts: U32,
    observationFailures: U32, samples: U32, handlesFirst: U32, handlesLast: U32, handlesMaxSampled: U32,
    handleLimit: U32)

  datatype Limits = Limits(
    peakWorkingSet: U64, peakCommit: U64, workingSetLimitBytes: U64, commitLimitBytes: U64, maxElapsedMs: U64,
    startMs: U64, lastMs: U64, elapsedMs: U64)

  type Int32 = n: int | -0x8000_0000 <= n < 0x8000_0000

  datatype Ledger = Ledger(abiCalls: seq<CallCounts>, counters: Counters, limits: Limits,
                           clockInitialized: bool, stopped: bool, settlementUnknown: bool,
                           firstStatus: Int32, failureCode: string, firstFailure: string)
  {
    predicate Valid() { |abiCalls| == 7 }
  }

  datatype Observation = Observation(calls: seq<CallCounts>, acquired: U32, released: U32, stillOwned: U32,
                                     quarantined: U32,
                                     stopped: bool, unknown: bool, firstFailureUnknown: bool, firstFailure: string)
  {
    predicate Valid() { |calls| == 14 }
  }

  predicate Are32(ws: seq<nat>) {
    forall i | 0 <= i < |ws| :: ws[i] < 0x1_0000_0000
  }

  predicate Are64(ws: seq<nat>) {
    forall i | 0 <= i < |ws| :: ws[i] < 0x1_0000_0000_0000_0000
  }

  // ----- the counters in wire order

  function CountList(c: CallCounts): (ws: seq<nat>)
    ensures |ws| == 6
  {
    [c.attempted, c.returned, c.accepted, c.settled, c.unknown, c.returnedFailure]
  }

  function CountsOf(ws: seq<nat>): CallCounts
    requires |ws| == 6 && Are32(ws)
  {
    CallCounts(ws[0], ws[1], ws[2], ws[3], ws[4], ws[5])
  }

  function CounterList(c: Counters): (ws: seq<nat>)
    ensures |ws| == 32
  {
    [
      c.attemptedSteps, c.returnedSteps, c.completedSteps, c.attempted, c.returned, c.completed, c.successful,
      c.accepted, c.abiReserved, c.generateReserved, c.encodeSignReserved, c.verifyReserved,
      c.verifyPositiveReserved, c.verifyNegativeReserved, c.policyReserved, c.budgetRejections,
      c.abiAttemptedTotal, c.allowedSymbolResolutions, c.forbiddenSymbolAttempts, c.buffersAllocated,
      c.buffersLive, c.releasesAttempted, c.releasesSucceeded, c.releasesUnknown, c.duplicateReleaseAttempts,
      c.observationAttempts, c.observationFailures, c.samples, c.handlesFirst, c.handlesLast,
      c.handlesMaxSampled, c.handleLimit
    ]
  }

  function CountersOf(w: seq<nat>): Counters
    requires |w| == 32 && Are32(w)
  {
    Counters(
      w[0], w[1], w[2], w[3], w[4], w[5], w[6], w[7], w[8], w[9], w[10], w[11], w[12], w[13], w[14], w[15],
      w[16], w[17], w[18], w[19], w[20], w[21], w[22], w[23], w[24], w[25], w[26], w[27], w[28], w[29], w[30],
      w[31])
  }

  function LimitList(l: Limits): (ws: seq<nat>)
    ensures |ws| == 8
  {
    [
      l.peakWorkingSet, l.peakCommit, l.workingSetLimitBytes, l.commitLimitBytes, l.maxElapsedMs, l.startMs,
      l.lastMs, l.elapsedMs
    ]
  }

  function LimitsOf(w: seq<nat>): Limits
    requires |w| == 8 && Are64(w)
  {
    Limits(w[0], w[1], w[2], w[3], w[4], w[5], w[6], w[7])
  }

  /** The execution time a ledger starts with, in milliseconds. */
  const DURATION := 30000

  const NO_CALLS := CallCounts(0, 0, 0, 0, 0, 0)

  function FreshLedger(): (l: Ledger)
    ensures l.Valid()
  {
    Ledger(seq(7, i => NO_CALLS), CountersOf(seq(32, i => 0)), Limits(0, 0, 0, 0, DURATION, 0, 0, 0),
           false, false, false, 0, "NONE", "none")
  }

  function FreshObservation(): (n: Observation)
    ensures n.Valid()
  {
    Observation(seq(14, i => NO_CALLS), 0, 0, 0, 0, false, false, false, "none")
  }

  /** Six words for each of a list of counts. */
  function Flat(cs: seq<CallCounts>): (ws: seq<nat>)
    ensures |ws| == 6 * |cs|
  {
    if cs == [] then [] else CountList(cs[0]) + Flat(cs[1..])
  }

  function Unflat(ws: seq<nat>, n: nat): (cs: seq<CallCounts>)
    requires |ws| == 6 * n && Are32(ws)
    ensures |cs| == n
  {
    if n == 0 then [] else [CountsOf(ws[..6])] + Unflat(ws[6..], n - 1)
  }

  lemma UnflatNothing()
    ensures Unflat([], 0) == []
  {
  }

  lemma UnflatStep(ws: seq<nat>, rest: seq<nat>, n: nat)
    requires |ws| == 6 && |rest| == 6 * n && Are32(ws) && Are32(rest)
    ensures Are32(ws + rest) && Unflat(ws + rest, n + 1) == [CountsOf(ws)] + Unflat(rest, n)
  {
    assert (ws + rest)[..6] == ws && (ws + rest)[6..] == rest;
  }

  lemma CountsBack(c: CallCounts)
    ensures Are32(CountList(c)) && CountsOf(CountList(c)) == c
  {
  }

  lemma {:induction false} UnflatFlat(cs: seq<CallCounts>)
    ensures Are32(Flat(cs)) && Unflat(Flat(cs), |cs|) == cs
  {
    hide CountList, CountsOf, Unflat;
    if cs == [] {
      UnflatNothing();
    } else {
      UnflatFlat(cs[1..]);
      CountsBack(cs[0]);
      UnflatStep(CountList(cs[0]), Flat(cs[1..]), |cs| - 1);
      assert cs == [cs[0]] + cs[1..];
    }
  }

  lemma {:induction false} FlatUnflat(ws: seq<nat>, n: nat)
    requires |ws| == 6 * n && Are32(ws)
    ensures Flat(Unflat(ws, n)) == ws
  {
    if n > 0 {
      FlatUnflat(ws[6..], n - 1);
      assert ws == ws[..6] + ws[6..];
    }
  }

  // ----- the block

  const WORDS := 162
  const FLAGS := 64

  function Words(l: Ledger, n: Observation): (ws: seq<nat>)
    requires l.Valid() && n.Valid()
    ensures |ws| == WORDS
  {
    Flat(l.abiCalls) + Flat(n.calls) + CounterList(l.counters) + [n.acquired, n.released, n.stillOwned, n.quarantined]
  }

  function FlagWord(l: Ledger, n: Observation): (flags: nat)
    ensures flags < FLAGS
  {
    Bit(l.clockInitialized) + 2 * Bit(l.stopped) + 4 * Bit(l.settlementUnknown)
    + 8 * Bit(n.stopped) + 16 * Bit(n.unknown) + 32 * Bit(n.firstFailureUnknown)
  }

  predicate HasBit(flags: nat, weight: nat)
    requires weight > 0
  {
    flags / weight % 2 == 1
  }

  /** The two's complement of a status, and back. */
  function Unsigned(status: Int32): (u: U32) {
    if status < 0 then status + 0x1_0000_0000 else status
  }

  function Signed(u: U32): Int32 {
    if u <= 0x7FFF_FFFF then u else u - 0x1_0000_0000
  }

  /** Every name of the record has a place in its table. */
  predicate Sendable(l: Ledger, n: Observation) {
    l.failureCode in CODES && l.firstFailure in STAGES && n.firstFailure in STAGES
  }

  function Tail(l: Ledger, n: Observation): (ws: seq<nat>)
    ensures |ws| == 5
  {
    [FlagWord(l, n), Unsigned(l.firstStatus), Position(CODES, l.failureCode),
     Position(STAGES, l.firstFailure), Position(STAGES, n.firstFailure)]
  }

  const PADDING: Bytes := [0, 0, 0, 0]

  lemma Sizes()
    ensures Size(WORDS, 4) == 648 && Size(8, 8) == 64 && Size(5, 4) == 20 && Size(42, 4) == 168 && Size(84, 4) == 336
    ensures Size(32, 4) == 128 && Size(4, 4) == 16 && Size(6, 4) == 24
  {
    SizeProduct(WORDS, 4);
    SizeProduct(8, 8);
    SizeProduct(5, 4);
    SizeProduct(42, 4);
    SizeProduct(84, 4);
    SizeProduct(32, 4);
    SizeProduct(4, 4);
    SizeProduct(6, 4);
  }

  function Payload(l: Ledger, n: Observation): (b: Bytes)
    requires l.Valid() && n.Valid()
    ensures |b| == 736
  {
    Sizes();
    Pack(Words(l, n), 4) + Pack(LimitList(l.limits), 8) + Pack(Tail(l, n), 4) + PADDING
  }

  datatype Record = Record(ledger: Ledger, native: Observation)

  /** The block of a record, if it has one. */
  function Encode(l: Ledger, n: Observation, h: Hash): (b: Option<Bytes>)
    requires l.Valid() && n.Valid()
    ensures b.Some? ==> |b.value| == 768
  {
    if Sendable(l, n) then Some(Payload(l, n) + h(Payload(l, n))) else None
  }

  function LedgerOf(ws: seq<nat>, ls: seq<nat>, t: seq<nat>): (l: Ledger)
    requires |ws| == WORDS && Are32(ws)
    requires |ls| == 8 && Are64(ls)
    requires |t| == 5 && t[1] < 0x1_0000_0000 && t[2] < |CODES| && t[3] < |STAGES|
    ensures l.Valid()
  {
    Ledger(Unflat(ws[..42], 7), CountersOf(ws[126..158]), LimitsOf(ls), HasBit(t[0], 1), HasBit(t[0], 2),
           HasBit(t[0], 4),
           Signed(t[1]), CODES[t[2]], STAGES[t[3]])
  }

  function ObservationOf(ws: seq<nat>, t: seq<nat>): (n: Observation)
    requires |ws| == WORDS && Are32(ws)
    requires |t| == 5 && t[4] < |STAGES|
    ensures n.Valid()
  {
    Observation(Unflat(ws[42..126], 14), ws[158], ws[159], ws[160], ws[161], HasBit(t[0], 8), HasBit(t[0], 16),
                HasBit(t[0], 32),
                STAGES[t[4]])
  }

  predicate WellFormedTail(t: seq<nat>) {
    |t| == 5 && t[0] < FLAGS && t[1] < 0x1_0000_0000 && t[2] < |CODES| && t[3] < |STAGES| && t[4] < |STAGES|
  }

  /** The integers of a block, section by section. */
  function BlockWords(b: Bytes): (ws: seq<nat>)
    requires |b| == 768
    ensures |ws| == WORDS && Are32(ws)
  {
    Sizes();
    PackUnpack(b[..648], 4, WORDS);
    assert Power(4) == 0x1_0000_0000;
    Unpack(b[..648], 4, WORDS)
  }

  function BlockLimits(b: Bytes): (ls: seq<nat>)
    requires |b| == 768
    ensures |ls| == 8 && Are64(ls)
  {
    Sizes();
    PackUnpack(b[648..712], 8, 8);
    assert Power(8) == 0x1_0000_0000_0000_0000;
    Unpack(b[648..712], 8, 8)
  }

  function BlockTail(b: Bytes): (t: seq<nat>)
    requires |b| == 768
    ensures |t| == 5 && Are32(t)
  {
    Sizes();
    PackUnpack(b[712..732], 4, 5);
    assert Power(4) == 0x1_0000_0000;
    Unpack(b[712..732], 4, 5)
  }

  /** What a block says, if it is one. */
  function Decode(b: Bytes, h: Hash): (r: Option<Record>)
    requires |b| == 768
    ensures r.Some? ==> r.value.ledger.Valid() && r.value.native.Valid()
  {
    if h(b[..736]) != b[736..] || b[732..736] != PADDING || !WellFormedTail(BlockTail(b)) then None
    else Some(Record(LedgerOf(BlockWords(b), BlockLimits(b), BlockTail(b)), ObservationOf(BlockWords(b), BlockTail(b))))
  }

  // ----- the two are inverse

  lemma CountersBack(c: Counters)
    ensures Are32(CounterList(c)) && CountersOf(CounterList(c)) == c
  {
  }

  lemma LimitsBack(l: Limits)
    ensures Are64(LimitList(l)) && LimitsOf(LimitList(l)) == l
  {
  }

  lemma CountersForth(w: seq<nat>)
    requires |w| == 32 && Are32(w)
    ensures CounterList(CountersOf(w)) == w
  {
  }

  lemma WordsOf(l: Ledger, n: Observation)
    requires l.Valid() && n.Valid()
    ensures Are32(Words(l, n))
    ensures Unflat(Words(l, n)[..42], 7) == l.abiCalls && Unflat(Words(l, n)[42..126], 14) == n.calls
    ensures CountersOf(Words(l, n)[126..158]) == l.counters
    ensures Words(l, n)[158..] == [n.acquired, n.released, n.stillOwned, n.quarantined]
  {
    hide CounterList, CountersOf, Flat, Unflat;
    CountersBack(l.counters);
    UnflatFlat(l.abiCalls);
    UnflatFlat(n.calls);
    assert Words(l, n)[..42] == Flat(l.abiCalls);
    assert Words(l, n)[42..126] == Flat(n.calls);
    assert Words(l, n)[126..158] == CounterList(l.counters);
    forall i | 0 <= i < WORDS ensures Words(l, n)[i] < 0x1_0000_0000 {
      if i < 42 {
        assert Words(l, n)[i] == Flat(l.abiCalls)[i];
      } else if i < 126 {
        assert Words(l, n)[i] == Flat(n.calls)[i - 42];
      } else if i < 158 {
        assert Words(l, n)[i] == CounterList(l.counters)[i - 126];
      }
    }
  }

  lemma FlagBits(l: Ledger, n: Observation)
    ensures var f := FlagWord(l, n);
      && HasBit(f, 1) == l.clockInitialized && HasBit(f, 2) == l.stopped && HasBit(f, 4) == l.settlementUnknown
      && HasBit(f, 8) == n.stopped && HasBit(f, 16) == n.unknown && HasBit(f, 32) == n.firstFailureUnknown
  {
    var low := Bit(l.clockInitialized) + 2 * Bit(l.stopped) + 4 * Bit(l.settlementUnknown);
    var high := Bit(n.stopped) + 2 * Bit(n.unknown) + 4 * Bit(n.firstFailureUnknown);
    assert FlagWord(l, n) == low + 8 * high;
  }

  lemma TailOf(l: Ledger, n: Observation)
    requires Sendable(l, n)
    ensures WellFormedTail(Tail(l, n))
    ensures Are32(Tail(l, n))
    ensures CODES[Tail(l, n)[2]] == l.failureCode && STAGES[Tail(l, n)[3]] == l.firstFailure
        && STAGES[Tail(l, n)[4]] == n.firstFailure
  {
    CodesDistinct();
    StagesDistinct();
    hide CODES, STAGES;
  }

  /** Whenever a record can be sent, what arrives is that record: every counter, limit,
      flag, the signed status and the names. */
  lemma DecodeEncode(l: Ledger, n: Observation, h: Hash)
    requires l.Valid() && n.Valid() && Encode(l, n, h).Some?
    ensures Decode(Encode(l, n, h).value, h) == Some(Record(l, n))
  {
    hide CODES, STAGES, Unflat, CountersOf, LimitsOf, Words, LimitList, FlagWord, HasBit, Pack, Unpack;
    Sizes();
    var b := Encode(l, n, h).value;
    WordsOf(l, n);
    LimitsBack(l.limits);
    TailOf(l, n);
    FlagBits(l, n);
    assert Power(4) == 0x1_0000_0000 && Power(8) == 0x1_0000_0000_0000_0000;
    assert b[..736] == Payload(l, n) && b[736..] == h(Payload(l, n));
    assert forall i | 158 <= i < 162 :: Words(l, n)[i] == Words(l, n)[158..][i - 158];
    assert b[..648] == Pack(Words(l, n), 4);
    UnpackPack(Words(l, n), 4);
    assert b[648..712] == Pack(LimitList(l.limits), 8);
    UnpackPack(LimitList(l.limits), 8);
    assert b[712..732] == Pack(Tail(l, n), 4);
    UnpackPack(Tail(l, n), 4);
    assert b[732..736] == PADDING;
  }

  lemma WordsForth(ws: seq<nat>, ls: seq<nat>, t: seq<nat>)
    requires |ws| == WORDS && Are32(ws)
    requires |ls| == 8 && Are64(ls)
    requires WellFormedTail(t)
    ensures Words(LedgerOf(ws, ls, t), ObservationOf(ws, t)) == ws
    ensures LimitList(LedgerOf(ws, ls, t).limits) == ls
  {
    hide CODES, STAGES, CounterList, CountersOf, Flat, Unflat, HasBit;
    FlatUnflat(ws[..42], 7);
    FlatUnflat(ws[42..126], 14);
    CountersForth(ws[126..158]);
    assert ws == ws[..42] + ws[42..126] + ws[126..158] + [ws[158], ws[159], ws[160], ws[161]];
  }

  lemma FlagsForth(f: nat)
    requires f < FLAGS
    ensures Bit(HasBit(f, 1)) + 2 * Bit(HasBit(f, 2)) + 4 * Bit(HasBit(f, 4))
            + 8 * Bit(HasBit(f, 8)) + 16 * Bit(HasBit(f, 16)) + 32 * Bit(HasBit(f, 32)) == f
  {
    hide HasBit, Bit;
    BitOne(f);
    BitTwo(f);
    BitFour(f);
    BitEight(f);
    BitSixteen(f);
    BitLast(f);
  }

  lemma BitOne(f: nat)
    ensures f == 2 * (f / 2) + Bit(HasBit(f, 1))
  {
  }

  lemma BitTwo(f: nat)
    ensures f / 2 == 2 * (f / 4) + Bit(HasBit(f, 2))
  {
  }

  lemma BitFour(f: nat)
    ensures f / 4 == 2 * (f / 8) + Bit(HasBit(f, 4))
  {
  }

  lemma BitEight(f: nat)
    ensures f / 8 == 2 * (f / 16) + Bit(HasBit(f, 8))
  {
  }

  lemma BitSixteen(f: nat)
    ensures f / 16 == 2 * (f / 32) + Bit(HasBit(f, 16))
  {
  }

  lemma BitLast(f: nat)
    requires f < FLAGS
    ensures f / 32 == Bit(HasBit(f, 32))
  {
  }

  lemma TailForth(ws: seq<nat>, ls: seq<nat>, t: seq<nat>)
    requires |ws| == WORDS && Are32(ws)
    requires |ls| == 8 && Are64(ls)
    requires WellFormedTail(t)
    ensures Sendable(LedgerOf(ws, ls, t), ObservationOf(ws, t)) && Tail(LedgerOf(ws, ls, t), ObservationOf(ws, t)) == t
  {
    CodesDistinct();
    StagesDistinct();
    hide CODES, STAGES, CountersOf, Unflat, HasBit, Position;
    PositionOfEntry(CODES, t[2]);
    PositionOfEntry(STAGES, t[3]);
    PositionOfEntry(STAGES, t[4]);
    FlagsForth(t[0]);
  }

  /** The only block of a record is the one the encoder makes: an accepted block
      re-encodes to itself. */
  lemma EncodeDecode(b: Bytes, h: Hash)
    requires |b| == 768 && Decode(b, h).Some?
    ensures var r := Decode(b, h).value; Encode(r.ledger, r.native, h) == Some(b)
  {
    hide CODES, STAGES, LedgerOf, ObservationOf, Words, Tail, LimitList, Sendable, Pack, Unpack, WellFormedTail;
    Sizes();
    var ws, ls, t := BlockWords(b), BlockLimits(b), BlockTail(b);
    WordsForth(ws, ls, t);
    TailForth(ws, ls, t);
    PackUnpack(b[..648], 4, WORDS);
    PackUnpack(b[648..712], 8, 8);
    PackUnpack(b[712..732], 4, 5);
    assert b[..736] == b[..648] + b[648..712] + b[712..732] + b[732..736];
    assert b == b[..736] + b[736..];
  }

  // ----- the loops

  lemma SizeStep(n: nat)
    ensures Size(6 * (n + 1), 4) == 24 + Size(6 * n, 4) && Size(6, 4) == 24
  {
    SizeProduct(6 * (n + 1), 4);
    SizeProduct(6 * n, 4);
    SizeProduct(6, 4);
  }

  /** Writes the counts of a list of calls and moves on. */
  method PutCounts(a: array<Byte>, at: nat, cs: seq<CallCounts>) returns (next: nat)
    requires at + Size(6 * |cs|, 4) <= a.Length
    modifies a
    ensures next == at + Size(6 * |cs|, 4)
    ensures a[..] == Patched(old(a[..]), at, Pack(Flat(cs), 4))
  {
    hide Patched, LE;
    next := at;
    ghost var was := a[..];
    for i := 0 to |cs|
      invariant next + Size(6 * (|cs| - i), 4) == at + Size(6 * |cs|, 4)
      invariant Patched(a[..], next, Pack(Flat(cs[i..]), 4)) == Patched(was, at, Pack(Flat(cs), 4))
    {
      ghost var before := a[..];
      ghost var here := next;
      SizeStep(|cs| - i - 1);
      assert cs[i..][0] == cs[i] && cs[i..][1..] == cs[i + 1..];
      next := PutAll(a, next, CountList(cs[i]), 4);
      PackAppend(CountList(cs[i]), Flat(cs[i + 1..]), 4);
      PatchTwice(before, here, Pack(CountList(cs[i]), 4), Pack(Flat(cs[i + 1..]), 4));
    }
    PatchNothing(a[..], next);
  }

  /** Reads the counts of n calls and moves on. */
  method GetCounts(b: Bytes, at: nat, n: nat) returns (cs: seq<CallCounts>, next: nat)
    requires at + Size(6 * n, 4) <= |b|
    ensures next == at + Size(6 * n, 4)
    ensures Are32(Unpack(b[at..next], 4, 6 * n)) && cs == Unflat(Unpack(b[at..next], 4, 6 * n), n)
  {
    assert Size(0, 4) == 0;
    hide Unpack, Unflat, CountsOf, Size, Power, Value;
    cs, next := [], at;
    ghost var end := at + Size(6 * n, 4);
    Are32Unpacked(b[at..end], 6 * n);
    UnflatNothing();
    for i := 0 to n
      invariant next + Size(6 * (n - i), 4) == end && |cs| == i
      invariant Are32(Unpack(b[next..end], 4, 6 * (n - i)))
      invariant cs + Unflat(Unpack(b[next..end], 4, 6 * (n - i)), n - i) == Unflat(Unpack(b[at..end], 4, 6 * n), n)
    {
      SizeStep(n - i - 1);
      CountsStep(b[next..end], n - i - 1);
      ghost var here := next;
      var ws;
      ws, next := GetAll(b, next, 4, 6);
      Slices(b, here, next, end);
      Associative(cs, [CountsOf(ws)], Unflat(Unpack(b[next..end], 4, 6 * (n - i - 1)), n - i - 1));
      cs := cs + [CountsOf(ws)];
    }
  }

  lemma Slices(b: Bytes, i: nat, j: nat, k: nat)
    requires i <= j <= k <= |b|
    ensures b[i..k][..j - i] == b[i..j] && b[i..k][j - i..] == b[j..k]
  {
  }

  lemma Are32Unpacked(b: Bytes, n: nat)
    requires |b| == Size(n, 4)
    ensures Are32(Unpack(b, 4, n))
  {
    PackUnpack(b, 4, n);
    assert Power(4) == 0x1_0000_0000;
  }

  lemma CountsStep(b: Bytes, n: nat)
    requires |b| == Size(6 * (n + 1), 4)
    ensures Size(6, 4) == 24 && |b| == 24 + Size(6 * n, 4)
    ensures Are32(Unpack(b, 4, 6 * (n + 1))) && Are32(Unpack(b[..24], 4, 6)) && Are32(Unpack(b[24..], 4, 6 * n))
    ensures Unflat(Unpack(b, 4, 6 * (n + 1)), n + 1) == [CountsOf(Unpack(b[..24], 4, 6))] + Unflat(Unpack(b[24..], 4,
        6 * n), n)
  {
    hide Unpack, Unflat, CountsOf, Size;
    SizeStep(n);
    Are32Unpacked(b, 6 * (n + 1));
    Are32Unpacked(b[..24], 6);
    Are32Unpacked(b[24..], 6 * n);
    UnpackSplit(b, 4, 6, 6 * n);
    UnflatStep(Unpack(b[..24], 4, 6), Unpack(b[24..], 4, 6 * n), n);
  }

  lemma {:induction false} UnpackSplit(b: Bytes, k: nat, m: nat, n: nat)
    requires |b| == Size(m + n, k)
    ensures Size(m + n, k) == Size(m, k) + Size(n, k)
    ensures Unpack(b, k, m + n) == Unpack(b[..Size(m, k)], k, m) + Unpack(b[Size(m, k)..], k, n)
  {
    hide Value;
    if m == 0 {
      assert b[0..] == b;
    } else {
      UnpackSplit(b[k..], k, m - 1, n);
      var s := Size(m, k);
      assert b[..s][..k] == b[..k] && b[..s][k..] == b[k..][..s - k] && b[k..][s - k..] == b[s..];
    }
  }

  /** The first 732 bytes of the block. */
  function Written(l: Ledger, n: Observation): (b: Bytes)
    requires l.Valid() && n.Valid()
    ensures |b| == 732
  {
    Sizes();
    Pack(Words(l, n), 4) + Pack(LimitList(l.limits), 8) + Pack(Tail(l, n), 4)
  }

  /** Writing ws and then rest is writing ws + rest. */
  lemma Advance(b: Bytes, at: nat, ws: seq<nat>, rest: seq<nat>)
    requires at + Size(|ws|, 4) + Size(|rest|, 4) <= |b|
    ensures Size(|ws + rest|, 4) == Size(|ws|, 4) + Size(|rest|, 4)
    ensures Patched(Patched(b, at, Pack(ws, 4)), at + Size(|ws|, 4), Pack(rest, 4)) == Patched(b, at,
        Pack(ws + rest, 4))
  {
    hide LE, Patched, Pack, Size;
    PackAppend(ws, rest, 4);
    PatchTwice(b, at, Pack(ws, 4), Pack(rest, 4));
  }

  method PutWords(a: array<Byte>, l: Ledger, n: Observation) returns (next: nat)
    requires l.Valid() && n.Valid() && a.Length == 768
    modifies a
    ensures Size(WORDS, 4) == next == 648
    ensures a[..] == Patched(old(a[..]), 0, Pack(Words(l, n), 4))
  {
    hide Patched, LE, Pack, Flat, CounterList;
    Sizes();
    ghost var was := a[..];
    next := PutCounts(a, 0, l.abiCalls);
    Advance(was, 0, Flat(l.abiCalls), Flat(n.calls));
    next := PutCounts(a, next, n.calls);
    Advance(was, 0, Flat(l.abiCalls) + Flat(n.calls), CounterList(l.counters));
    next := PutAll(a, next, CounterList(l.counters), 4);
    Advance(was, 0, Flat(l.abiCalls) + Flat(n.calls) + CounterList(l.counters),
        [n.acquired, n.released, n.stillOwned, n.quarantined]);
    next := PutAll(a, next, [n.acquired, n.released, n.stillOwned, n.quarantined], 4);
  }

  method PutWord(a: array<Byte>, at: nat, w: nat) returns (next: nat)
    requires at + 4 <= a.Length
    modifies a
    ensures next == at + 4 && a[..] == Patched(old(a[..]), at, Pack([w], 4))
  {
    SizeProduct(1, 4);
    next := PutAll(a, at, [w], 4);
  }

  /** Flags, status and the three names; a name outside its table ends it. */
  method PutTail(a: array<Byte>, at: nat, l: Ledger, n: Observation) returns (ok: bool)
    requires at + 20 <= a.Length
    modifies a
    ensures ok <==> Sendable(l, n)
    ensures ok ==> Size(5, 4) == 20 && a[..] == Patched(old(a[..]), at, Pack(Tail(l, n), 4))
  {
    hide Patched, LE, Pack, CODES, STAGES, Position, FlagWord;
    SizeSmall();
    ok := false;
    ghost var was := a[..];
    var flags, status := FlagWord(l, n), Unsigned(l.firstStatus);
    var next := PutWord(a, at, flags);
    Advance(was, at, [flags], [status]);
    next := PutWord(a, next, status);
    var found, code := StringId(CODES, l.failureCode);
    if !found { return; }
    Advance(was, at, [flags, status], [code]);
    next := PutWord(a, next, code);
    var stage, native;
    found, stage := StringId(STAGES, l.firstFailure);
    if !found { return; }
    Advance(was, at, [flags, status, code], [stage]);
    next := PutWord(a, next, stage);
    found, native := StringId(STAGES, n.firstFailure);
    if !found { return; }
    Advance(was, at, [flags, status, code, stage], [native]);
    next := PutWord(a, next, native);
    assert [flags] + [status] == [flags, status];
    assert [flags, status] + [code] == [flags, status, code];
    assert [flags, status, code] + [stage] == [flags, status, code, stage];
    assert [flags, status, code, stage] + [native] == Tail(l, n);
    ok := true;
  }

  lemma SizeSmall()
    ensures Size(1, 4) == 4 && Size(2, 4) == 8 && Size(3, 4) == 12 && Size(4, 4) == 16 && Size(5, 4) == 20
  {
    SizeProduct(1, 4);
    SizeProduct(2, 4);
    SizeProduct(3, 4);
    SizeProduct(4, 4);
    SizeProduct(5, 4);
  }

  /** The encoder: a cursor moves over a zeroed block; an unknown name is a failure. */
  method EncodeSettlement(l: Ledger, n: Observation, h: Hash) returns (ok: bool, out: array<Byte>)
    requires l.Valid() && n.Valid()
    ensures fresh(out) && out.Length == 768
    ensures ok == Encode(l, n, h).Some?
    ensures ok ==> out[..] == Encode(l, n, h).value
  {
    hide LE, Pack, Words, LimitList, Tail, Sendable;
    Sizes();
    out := new Byte[768](i => 0);
    ghost var zeros := out[..];
    var at := PutWords(out, l, n);
    at := PutAll(out, at, LimitList(l.limits), 8);
    PatchTwice(zeros, 0, Pack(Words(l, n), 4), Pack(LimitList(l.limits), 8));
    ghost var before := out[..];
    ok := PutTail(out, at, l, n);
    if !ok { return; }
    PatchTwice(zeros, 0, Pack(Words(l, n), 4) + Pack(LimitList(l.limits), 8), Pack(Tail(l, n), 4));
    assert out[..] == Patched(zeros, 0, Written(l, n));
    assert out[..736] == Payload(l, n);
    Copy(out, 736, h(out[..736]));
    assert out[..] == Payload(l, n) + h(Payload(l, n));
  }

  /** m integers from the middle of a run. */
  lemma UnpackMiddle(b: Bytes, k: nat, i: nat, m: nat, n: nat)
    requires |b| == Size(i + m + n, k)
    ensures Size(i, k) + Size(m, k) <= |b|
    ensures Unpack(b, k, i + m + n)[i..i + m] == Unpack(b[Size(i, k)..Size(i, k) + Size(m, k)], k, m)
  {
    hide Unpack, Size;
    UnpackSplit(b, k, i, m + n);
    var rest := b[Size(i, k)..];
    UnpackSplit(rest, k, m, n);
    var all := Unpack(b, k, i + m + n);
    var tail := Unpack(rest, k, m + n);
    assert all[i..i + m] == tail[..m];
    Slices(b, Size(i, k), Size(i, k) + Size(m, k), |b|);
    assert b[Size(i, k)..|b|] == rest;
  }

  /** Where the sections of the block lie. */
  lemma Sections(b: Bytes)
    requires |b| == 768
    ensures Size(42, 4) == 168 && Size(84, 4) == 336 && Size(32, 4) == 128 && Size(4, 4) == 16
    ensures BlockWords(b)[..42] == Unpack(b[..168], 4, 42) && BlockWords(b)[42..126] == Unpack(b[168..504], 4, 84)
    ensures BlockWords(b)[126..158] == Unpack(b[504..632], 4, 32) && BlockWords(b)[158..] == Unpack(b[632..648], 4, 4)
  {
    hide Unpack, Size;
    Sizes();
    SizeProduct(126, 4);
    SizeProduct(158, 4);
    SizeProduct(0, 4);
    var words := b[..648];
    UnpackMiddle(words, 4, 0, 42, 120);
    UnpackMiddle(words, 4, 42, 84, 36);
    UnpackMiddle(words, 4, 126, 32, 4);
    UnpackMiddle(words, 4, 158, 4, 0);
    assert words[0..168] == b[..168] && words[168..504] == b[168..504] && words[504..632] == b[504..632]
        && words[632..648] == b[632..648];
    assert BlockWords(b) == Unpack(words, 4, 162);
  }

  /** The decoder reads the sections in order and refuses a bad digest, padding, flag or
      name. */
  method DecodeSettlement(b: Bytes, h: Hash) returns (r: Option<Record>)
    requires |b| == 768
    ensures r == Decode(b, h)
  {
    hide CODES, STAGES, Unpack, Unflat, CountersOf, LimitsOf, HasBit, Size, Value, Power, PADDING;
    Sizes();
    PaddingIsZero();
    var padded := Zero(b[732..736]);
    if h(b[..736]) != b[736..] || !padded { return None; }
    Sections(b);
    var abi, native, scalars, resources, longs, tail, at;
    abi, at := GetCounts(b, 0, 7);
    native, at := GetCounts(b, at, 14);
    scalars, at := GetAll(b, at, 4, 32);
    resources, at := GetAll(b, at, 4, 4);
    longs, at := GetAll(b, at, 8, 8);
    tail, at := GetAll(b, at, 4, 5);
    assert tail == BlockTail(b) && longs == BlockLimits(b) && scalars == BlockWords(b)[126..158];
    assert forall i | 158 <= i < 162 :: BlockWords(b)[i] == BlockWords(b)[158..][i - 158];
    if tail[0] >= FLAGS || tail[2] >= |CODES| || tail[3] >= |STAGES| || tail[4] >= |STAGES| { return None; }
    var l := Ledger(abi, CountersOf(scalars), LimitsOf(longs), HasBit(tail[0], 1), HasBit(tail[0], 2),
                    HasBit(tail[0], 4),
                    Signed(tail[1]), CODES[tail[2]], STAGES[tail[3]]);
    var n := Observation(native, resources[0], resources[1], resources[2], resources[3],
                         HasBit(tail[0], 8), HasBit(tail[0], 16), HasBit(tail[0], 32), STAGES[tail[4]]);
    r := Some(Record(l, n));
  }

  lemma PaddingIsZero()
    ensures PADDING == seq(4, i => 0)
  {
  }
}

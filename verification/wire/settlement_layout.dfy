/** Where everything lies in a settlement block: the offsets both sides rely on. */
module SettlementLayout {
  import opened WireBytes
  import opened DiagnosticNames
  import opened Settlements

  /** The 32-bit integer at an offset of the block, the lowest byte first. */
  function Word(b: Bytes, at: nat): (n: nat)
    requires at + 4 <= |b|
  {
    Value(b[at..at + 4])
  }

  function Long(b: Bytes, at: nat): (n: nat)
    requires at + 8 <= |b|
  {
    Value(b[at..at + 8])
  }

  /** The counts of one call in 24 bytes. */
  predicate CountsAt(b: Bytes, at: nat, c: CallCounts)
    requires at + 24 <= |b|
  {
    && Word(b, at) == c.attempted && Word(b, at + 4) == c.returned && Word(b, at + 8) == c.accepted
    && Word(b, at + 12) == c.settled && Word(b, at + 16) == c.unknown && Word(b, at + 20) == c.returnedFailure
  }

  /** The packed integer i of a section that starts at base. */
  lemma {:induction false} Packed(b: Bytes, base: nat, ws: seq<nat>, k: nat, i: nat)
    requires i < |ws| && base + Size(|ws|, k) <= |b| && b[base..base + Size(|ws|, k)] == Pack(ws, k) && ws[i] < Power(k)
    ensures base + k * i + k <= |b| && Value(b[base + k * i..base + k * i + k]) == ws[i]
    decreases |ws|
  {
    hide LE, Value, Power, Pack;
    PackSays(ws, k);
    Further(k, i);
    var all := b[base..base + Size(|ws|, k)];
    assert Size(|ws|, k) == k + Size(|ws| - 1, k) && all == LE(ws[0], k) + Pack(ws[1..], k);
    if i == 0 {
      assert b[base..base + k] == all[..k] == LE(ws[0], k);
      ValueLE(ws[0], k);
    } else {
      assert b[base + k..base + k + Size(|ws| - 1, k)] == all[k..] == Pack(ws[1..], k);
      Packed(b, base + k, ws[1..], k, i - 1);
    }
  }

  lemma PackSays(ws: seq<nat>, k: nat)
    requires ws != []
    ensures Pack(ws, k) == LE(ws[0], k) + Pack(ws[1..], k) && Size(|ws|, k) == k + Size(|ws| - 1, k)
  {
  }

  lemma Further(k: nat, i: nat)
    ensures i == 0 ==> k * i == 0
    ensures i > 0 ==> k * i == k + k * (i - 1)
  {
  }

  lemma Section(l: Ledger, n: Observation, h: Hash) returns (b: Bytes)
    requires l.Valid() && n.Valid() && Sendable(l, n)
    ensures Encode(l, n, h) == Some(b) && |b| == 768 && b[..736] == Payload(l, n) && b[736..] == h(b[..736])
    ensures b[0..648] == Pack(Words(l, n), 4) && b[648..712] == Pack(LimitList(l.limits), 8)
    ensures b[712..732] == Pack(Tail(l, n), 4) && b[732..736] == [0, 0, 0, 0]
    ensures Size(WORDS, 4) == 648 && Size(8, 8) == 64 && Size(5, 4) == 20
  {
    hide Words, LimitList, Tail, Pack, Sendable;
    Sizes();
    b := Encode(l, n, h).value;
    assert b[..736] == Payload(l, n);
  }

  lemma Widths()
    ensures Power(4) == 0x1_0000_0000 && Power(8) == 0x1_0000_0000_0000_0000
  {
  }

  lemma PackedWord(b: Bytes, base: nat, ws: seq<nat>, i: nat)
    requires i < |ws| && Are32(ws) && base + Size(|ws|, 4) <= |b| && b[base..base + Size(|ws|, 4)] == Pack(ws, 4)
    ensures base + 4 * i + 4 <= |b| && Word(b, base + 4 * i) == ws[i]
  {
    hide Value, Pack, Size, Power;
    Widths();
    Packed(b, base, ws, 4, i);
  }

  lemma PackedLong(b: Bytes, base: nat, ws: seq<nat>, i: nat)
    requires i < |ws| && Are64(ws) && base + Size(|ws|, 8) <= |b| && b[base..base + Size(|ws|, 8)] == Pack(ws, 8)
    ensures base + 8 * i + 8 <= |b| && Long(b, base + 8 * i) == ws[i]
  {
    hide Value, Pack, Size, Power;
    Widths();
    Packed(b, base, ws, 8, i);
  }

  lemma WordAt(l: Ledger, n: Observation, h: Hash, i: nat)
    requires l.Valid() && n.Valid() && Sendable(l, n) && i < 162
    ensures Encode(l, n, h).Some? && Word(Encode(l, n, h).value, 4 * i) == Words(l, n)[i]
  {
    hide Word, Pack, Encode, Payload, Words, LimitList, Tail, Size, Sendable, Are32;
    var b := Section(l, n, h);
    Words32(l, n);
    PackedWord(b, 0, Words(l, n), i);
  }

  lemma LongAt(l: Ledger, n: Observation, h: Hash, i: nat)
    requires l.Valid() && n.Valid() && Sendable(l, n) && i < 8
    ensures Encode(l, n, h).Some? && Long(Encode(l, n, h).value, 648 + 8 * i) == LimitList(l.limits)[i]
  {
    hide Long, Pack, Encode, Payload, Words, LimitList, Tail, Size, Sendable, Are64;
    var b := Section(l, n, h);
    LimitsBack(l.limits);
    PackedLong(b, 648, LimitList(l.limits), i);
  }

  lemma Words32(l: Ledger, n: Observation)
    requires l.Valid() && n.Valid()
    ensures Are32(Words(l, n))
  {
    hide Words;
    WordsOf(l, n);
  }

  lemma CounterAt(l: Ledger, n: Observation, h: Hash, i: nat)
    requires l.Valid() && n.Valid() && Sendable(l, n) && i < 32
    ensures Encode(l, n, h).Some? && Word(Encode(l, n, h).value, 504 + 4 * i) == CounterList(l.counters)[i]
  {
    hide Value, Encode, CounterList, Flat, Sendable;
    WordAt(l, n, h, 126 + i);
  }

  /** The six counts of the i-th call lie one behind the other. */
  lemma {:induction false} FlatAt(cs: seq<CallCounts>, i: nat)
    requires i < |cs|
    ensures Flat(cs)[6 * i..6 * i + 6]
         == [cs[i].attempted, cs[i].returned, cs[i].accepted, cs[i].settled, cs[i].unknown, cs[i].returnedFailure]
  {
    if i > 0 {
      FlatAt(cs[1..], i - 1);
      assert Flat(cs)[6 * i..6 * i + 6] == Flat(cs[1..])[6 * (i - 1)..6 * (i - 1) + 6];
    }
  }

  /** The counts of the seven calls of the library and of the fourteen of the system. */
  lemma CallLayout(l: Ledger, n: Observation, h: Hash, i: nat)
    requires l.Valid() && n.Valid() && Sendable(l, n) && i < 21
    ensures Encode(l, n, h).Some?
    ensures CountsAt(Encode(l, n, h).value, 24 * i, if i < 7 then l.abiCalls[i] else n.calls[i - 7])
  {
    hide Value, Encode, Words, Sendable;
    CallWords(l, n, i);
    WordAt(l, n, h, 6 * i);
    WordAt(l, n, h, 6 * i + 1);
    WordAt(l, n, h, 6 * i + 2);
    WordAt(l, n, h, 6 * i + 3);
    WordAt(l, n, h, 6 * i + 4);
    WordAt(l, n, h, 6 * i + 5);
    var ws := Words(l, n);
    assert ws[6 * i..6 * i + 6] == [ws[6 * i], ws[6 * i + 1], ws[6 * i + 2], ws[6 * i + 3], ws[6 * i + 4],
        ws[6 * i + 5]];
  }

  lemma CallWords(l: Ledger, n: Observation, i: nat)
    requires l.Valid() && n.Valid() && i < 21
    ensures Words(l, n)[6 * i..6 * i + 6] == CountList(if i < 7 then l.abiCalls[i] else n.calls[i - 7])
  {
    hide CounterList, Flat;
    var ws := Words(l, n);
    if i < 7 {
      FlatAt(l.abiCalls, i);
      assert ws[6 * i..6 * i + 6] == Flat(l.abiCalls)[6 * i..6 * i + 6];
    } else {
      FlatAt(n.calls, i - 7);
      assert ws[6 * i..6 * i + 6] == Flat(n.calls)[6 * (i - 7)..6 * (i - 7) + 6];
    }
  }

  /** The counters of the ledger. */
  lemma CounterLayout(l: Ledger, n: Observation, h: Hash)
    requires l.Valid() && n.Valid() && Sendable(l, n)
    ensures Encode(l, n, h).Some?
    ensures var b, c := Encode(l, n, h).value, l.counters;
      && Word(b, 504) == c.attemptedSteps && Word(b, 508) == c.returnedSteps
      && Word(b, 512) == c.completedSteps && Word(b, 516) == c.attempted
      && Word(b, 520) == c.returned && Word(b, 524) == c.completed
      && Word(b, 528) == c.successful && Word(b, 532) == c.accepted
      && Word(b, 536) == c.abiReserved && Word(b, 540) == c.generateReserved
      && Word(b, 544) == c.encodeSignReserved && Word(b, 548) == c.verifyReserved
      && Word(b, 552) == c.verifyPositiveReserved && Word(b, 556) == c.verifyNegativeReserved
      && Word(b, 560) == c.policyReserved && Word(b, 564) == c.budgetRejections
      && Word(b, 568) == c.abiAttemptedTotal && Word(b, 572) == c.allowedSymbolResolutions
      && Word(b, 576) == c.forbiddenSymbolAttempts && Word(b, 580) == c.buffersAllocated
      && Word(b, 584) == c.buffersLive && Word(b, 588) == c.releasesAttempted
      && Word(b, 592) == c.releasesSucceeded && Word(b, 596) == c.releasesUnknown
      && Word(b, 600) == c.duplicateReleaseAttempts && Word(b, 604) == c.observationAttempts
      && Word(b, 608) == c.observationFailures && Word(b, 612) == c.samples
      && Word(b, 616) == c.handlesFirst && Word(b, 620) == c.handlesLast
      && Word(b, 624) == c.handlesMaxSampled && Word(b, 628) == c.handleLimit
  {
    hide Value, Encode, Sendable, Words;
    CounterAt(l, n, h, 0); CounterAt(l, n, h, 1); CounterAt(l, n, h, 2); CounterAt(l, n, h, 3);
    CounterAt(l, n, h, 4); CounterAt(l, n, h, 5); CounterAt(l, n, h, 6); CounterAt(l, n, h, 7);
    CounterAt(l, n, h, 8); CounterAt(l, n, h, 9); CounterAt(l, n, h, 10); CounterAt(l, n, h, 11);
    CounterAt(l, n, h, 12); CounterAt(l, n, h, 13); CounterAt(l, n, h, 14); CounterAt(l, n, h, 15);
    CounterAt(l, n, h, 16); CounterAt(l, n, h, 17); CounterAt(l, n, h, 18); CounterAt(l, n, h, 19);
    CounterAt(l, n, h, 20); CounterAt(l, n, h, 21); CounterAt(l, n, h, 22); CounterAt(l, n, h, 23);
    CounterAt(l, n, h, 24); CounterAt(l, n, h, 25); CounterAt(l, n, h, 26); CounterAt(l, n, h, 27);
    CounterAt(l, n, h, 28); CounterAt(l, n, h, 29); CounterAt(l, n, h, 30); CounterAt(l, n, h, 31);
  }

  /** What the system still held. */
  lemma HeldLayout(l: Ledger, n: Observation, h: Hash)
    requires l.Valid() && n.Valid() && Sendable(l, n)
    ensures Encode(l, n, h).Some?
    ensures var b := Encode(l, n, h).value;
      && Word(b, 632) == n.acquired && Word(b, 636) == n.released
      && Word(b, 640) == n.stillOwned && Word(b, 644) == n.quarantined
  {
    hide Value, Encode, Flat, CounterList, Sendable;
    WordAt(l, n, h, 158);
    WordAt(l, n, h, 159);
    WordAt(l, n, h, 160);
    WordAt(l, n, h, 161);
  }

  /** The limits and times. */
  lemma LimitLayout(l: Ledger, n: Observation, h: Hash)
    requires l.Valid() && n.Valid() && Sendable(l, n)
    ensures Encode(l, n, h).Some?
    ensures var b, t := Encode(l, n, h).value, l.limits;
      && Long(b, 648) == t.peakWorkingSet && Long(b, 656) == t.peakCommit
      && Long(b, 664) == t.workingSetLimitBytes && Long(b, 672) == t.commitLimitBytes
      && Long(b, 680) == t.maxElapsedMs && Long(b, 688) == t.startMs
      && Long(b, 696) == t.lastMs && Long(b, 704) == t.elapsedMs
  {
    hide Value, Encode, Sendable;
    LongAt(l, n, h, 0);
    LongAt(l, n, h, 1);
    LongAt(l, n, h, 2);
    LongAt(l, n, h, 3);
    LongAt(l, n, h, 4);
    LongAt(l, n, h, 5);
    LongAt(l, n, h, 6);
    LongAt(l, n, h, 7);
  }

  /** Six flags, the status in two's complement, the three names by their places, padding
      and digest. */
  lemma TailLayout(l: Ledger, n: Observation, h: Hash)
    requires l.Valid() && n.Valid() && Sendable(l, n)
    ensures Encode(l, n, h).Some?
    ensures var b := Encode(l, n, h).value;
      && Word(b, 712)
      == (if l.clockInitialized then 1 else 0) + (if l.stopped then 2 else 0) + (if l.settlementUnknown then 4 else 0)
         + (if n.stopped then 8 else 0) + (if n.unknown then 16 else 0) + (if n.firstFailureUnknown then 32 else 0)
      && Word(b, 716) == (if l.firstStatus < 0 then l.firstStatus + 0x1_0000_0000 else l.firstStatus)
      && Word(b, 720) < |CODES| && CODES[Word(b, 720)] == l.failureCode
      && Word(b, 724) < |STAGES| && STAGES[Word(b, 724)] == l.firstFailure
      && Word(b, 728) < |STAGES| && STAGES[Word(b, 728)] == n.firstFailure
      && b[732..736] == [0, 0, 0, 0] && b[736..] == h(b[..736])
  {
    hide Word, Pack, Encode, Payload, Words, LimitList, Size, CODES, STAGES, Are32, WellFormedTail;
    var b := Section(l, n, h);
    var t := Tail(l, n);
    TailOf(l, n);
    PackedWord(b, 712, t, 0);
    PackedWord(b, 712, t, 1);
    PackedWord(b, 712, t, 2);
    PackedWord(b, 712, t, 3);
    PackedWord(b, 712, t, 4);
  }
}

/** The bounded crypto run: sixteen steps over native buffers. However the native calls,
    the clock and the sampler behave, every buffer it was given is released exactly once
    before it returns, and no budget is ever refused; it reports success only for the
    complete run. */
module CryptoSequences {
  import opened WireBytes
  import opened Settlements
  import opened Scalars
  import opened DerSignatures
  import opened Certificates
  import opened TbsBuilder
  import opened CryptoLedgers
  import opened CryptoCalls
  import opened BufferPools
  import opened PermissionLog
  import opened Supervisors

  // ----- what a certificate of the run is

  /** Every certificate the run assembles can be taken apart again, into what it was made
      of, and fits a buffer. */
  lemma TakenApart(role: Role, serial: Serial, point: Scalars.Point, raw: Raw)
    requires Scalars.Valid(raw[..32]) && Scalars.Valid(raw[32..])
    ensures var tbs := DerWrap(SEQUENCE, TbsBody(role, serial, point));
            && Extract(Certificate(tbs, raw)) == Some(Parts(tbs, raw[..32], raw[32..]))
            && 0 < |Certificate(tbs, raw)| <= MAX_CAPACITY && raw[..32] + raw[32..] == raw
  {
    hide TbsBody, Extract, DerSignatures.Encode, LengthOctets;
    TbsRoundTrips(role, serial, point, raw);
    TbsIsShort(role, serial, point);
    Shorts();
    assert |SignatureBits(raw)| <= 80 && |ALGORITHM| <= 16;
  }

  /** The serial numbers of the run. */
  function SerialOf(i: nat): Serial
    requires i < 3
  {
    seq(16, b requires 0 <= b < 16 => (i + 1) * 17 + b)
  }

  lemma SerialIsPositive(i: nat)
    requires i < 3
    ensures BE(SerialOf(i)) != 0
  {
    ZeroIffZeros(SerialOf(i));
    assert SerialOf(i)[0] == (i + 1) * 17;
  }

  // ----- the calls of a complete run

  /** What the library handed out: the keys with their points, and the signatures. */
  datatype Material = Material(keys: seq<Bytes>, points: seq<Scalars.Point>, signatures: seq<Raw>)

  function RoleOf(i: nat): Role {
    if i == 0 then Issuer else if i == 1 then Server else Client
  }

  /** The to-be-signed part of certificate i. */
  function PartOf(m: Material, i: nat): Bytes
    requires i < 3 && i < |m.points|
  {
    DerWrap(SEQUENCE, TbsBody(RoleOf(i), SerialOf(i), m.points[i]))
  }

  function CertificateOf(m: Material, i: nat): Bytes
    requires i < 3 && i < |m.points| && i < |m.signatures|
  {
    Certificate(PartOf(m, i), m.signatures[i])
  }

  /** The signature with the lowest bit of its first byte turned. */
  function Turned(raw: Raw): Raw {
    raw[0 := if raw[0] % 2 == 0 then raw[0] + 1 else raw[0] - 1]
  }

  /** There is enough for the first n calls. */
  predicate Enough(m: Material, n: nat) {
    && |m.keys| == |m.points| <= 3 && |m.signatures| <= 3 && n <= 16
    && (n >= 2 ==> |m.points| >= 1) && (n >= 3 ==> |m.points| >= 2) && (n >= 4 ==> |m.points| == 3)
    && (n >= 5 ==> |m.signatures| >= 1) && (n >= 6 ==> |m.signatures| >= 2) && (n >= 7 ==> |m.signatures| == 3)
  }

  /** The k-th call of the plan. */
  function CallOf(m: Material, k: nat): CallMade
    requires k < 16 && Enough(m, k + 1)
  {
    if k == 0 then Answered(AbiVersion, 3)
    else if k < 4 then Answered(KeyMade(m.keys[k - 1], m.points[k - 1]), 0)
    else if k < 7 then
      Answered(CertificateSigned(m.keys[0], m.points[0], PartOf(m, k - 4), m.signatures[k - 4]), 0)
    else if k < 10 then Answered(SignatureChecked(m.points[0], PartOf(m, k - 7), m.signatures[k - 7]), 0)
    else if k < 13 then Answered(SignatureChecked(m.points[0], PartOf(m, k - 10), Turned(m.signatures[k - 10])), 8)
    else if k == 13 then Answered(PolicyChecked(CertificateOf(m, 1), 1), 0)
    else if k == 14 then Answered(PolicyChecked(CertificateOf(m, 2), 2), 0)
    else Answered(PolicyChecked(CertificateOf(m, 1), 2), 8)
  }

  ghost predicate PlannedAt(calls: seq<CallMade>, m: Material, i: nat) {
    i < 16 && i < |calls| && Enough(m, i + 1) && calls[i] == CallOf(m, i)
  }

  /** The first k calls were made as planned. */
  ghost predicate AsPlanned(calls: seq<CallMade>, m: Material, k: nat) {
    Enough(m, k) && |calls| == k && forall i | 0 <= i < k :: PlannedAt(calls, m, i)
  }

  lemma NoneYet(m: Material)
    requires Enough(m, 0)
    ensures AsPlanned([], m, 0)
  {
  }

  /** More material, and the next call. */
  lemma OneMoreCall(calls: seq<CallMade>, m: Material, k: nat, more: Material)
    requires AsPlanned(calls, m, k) && k < 16 && Enough(more, k + 1)
    requires m.keys <= more.keys && m.points <= more.points && m.signatures <= more.signatures
    ensures AsPlanned(calls + [CallOf(more, k)], more, k + 1)
  {
    hide Certificate, TbsBody, DerWrap, SerialOf;
    var all := calls + [CallOf(more, k)];
    forall i | 0 <= i < k + 1
      ensures PlannedAt(all, more, i)
    {
      if i < k { assert PlannedAt(calls, m, i); }
    }
  }

  /** Another step was made with what the plan says, and answered as expected. */
  lemma NextCall(calls: seq<CallMade>, m: Material, k: nat, more: Material, exchange: Exchange)
    requires AsPlanned(calls, m, k) && k < 16 && Enough(more, k + 1) && exchange == CallOf(more, k).exchange
    requires m.keys <= more.keys && m.points <= more.points && m.signatures <= more.signatures
    ensures AsPlanned(calls + [Answered(exchange, CategoryOf(k).Expected())], more, k + 1)
  {
    hide PartOf, CertificateOf, AsPlanned, Turned;
    ExpectedIs(k);
    OneMoreCall(calls, m, k, more);
  }

  /** All sixteen, one by one: the interface version answered 3; three keys; three
      certificates signed with the first key; the three signatures checked, and answered 0;
      the same three with one bit turned, and answered 8; the policy of the server as 1 and
      of the client as 2, answered 0, and of the server as 2, answered 8. */
  ghost predicate AllAsPlanned(calls: seq<CallMade>, m: Material) {
    && |m.keys| == |m.points| == |m.signatures| == 3 && (forall p <- m.points :: p[0] == 4)
    && (forall key <- m.keys :: 1 <= |key| <= 256)
    && calls == [
         Answered(AbiVersion, 3),
         Answered(KeyMade(m.keys[0], m.points[0]), 0),
         Answered(KeyMade(m.keys[1], m.points[1]), 0),
         Answered(KeyMade(m.keys[2], m.points[2]), 0),
         Answered(CertificateSigned(m.keys[0], m.points[0], PartOf(m, 0), m.signatures[0]), 0),
         Answered(CertificateSigned(m.keys[0], m.points[0], PartOf(m, 1), m.signatures[1]), 0),
         Answered(CertificateSigned(m.keys[0], m.points[0], PartOf(m, 2), m.signatures[2]), 0),
         Answered(SignatureChecked(m.points[0], PartOf(m, 0), m.signatures[0]), 0),
         Answered(SignatureChecked(m.points[0], PartOf(m, 1), m.signatures[1]), 0),
         Answered(SignatureChecked(m.points[0], PartOf(m, 2), m.signatures[2]), 0),
         Answered(SignatureChecked(m.points[0], PartOf(m, 0), Turned(m.signatures[0])), 8),
         Answered(SignatureChecked(m.points[0], PartOf(m, 1), Turned(m.signatures[1])), 8),
         Answered(SignatureChecked(m.points[0], PartOf(m, 2), Turned(m.signatures[2])), 8),
         Answered(PolicyChecked(CertificateOf(m, 1), 1), 0),
         Answered(PolicyChecked(CertificateOf(m, 2), 2), 0),
         Answered(PolicyChecked(CertificateOf(m, 1), 2), 8)
       ]
  }

  lemma AllSixteen(calls: seq<CallMade>, m: Material)
    requires AsPlanned(calls, m, 16) && (forall p <- m.points :: p[0] == 4)
    requires forall key <- m.keys :: 1 <= |key| <= 256
    ensures AllAsPlanned(calls, m)
  {
    hide PartOf, CertificateOf, Turned;
    assert PlannedAt(calls, m, 0) && PlannedAt(calls, m, 1) && PlannedAt(calls, m, 2) && PlannedAt(calls, m, 3);
    assert PlannedAt(calls, m, 4) && PlannedAt(calls, m, 5) && PlannedAt(calls, m, 6) && PlannedAt(calls, m, 7);
    assert PlannedAt(calls, m, 8) && PlannedAt(calls, m, 9) && PlannedAt(calls, m, 10) && PlannedAt(calls, m, 11);
    assert PlannedAt(calls, m, 12) && PlannedAt(calls, m, 13) && PlannedAt(calls, m, 14) && PlannedAt(calls, m, 15);
  }

  /** Somebody answered something else than what a good run needs. */
  ghost predicate Disturbed(book: Book, memory: Memory)
    reads book`answers, memory`failed
  {
    book.Trouble() || !memory.Reliable() || !book.sampled
  }

  // ----- one step

  lemma AtLive(l: Ledger, r: nat, k: nat, b: nat, f: nat)
    requires At(l, r, k, b, f)
    ensures l.counters.buffersLive == b - f && l.counters.budgetRejections == 0
        && l.counters.duplicateReleaseAttempts == 0
    ensures b <= 45
  {
    hide StepBits, CallsAt;
  }

  lemma BuffersFit(k: nat)
    requires k < 16
    ensures BuffersAfter(k + 1) == BuffersAfter(k) + BuffersOf(k) <= 45 && BuffersOf(k) <= 5
  {
  }

  /** Nothing is in flight and everything so far was as planned. */
  ghost predicate Between(pool: BufferPool, k: nat)
    reads pool, pool.book, pool.memory
  {
    && pool.Valid() && |pool.slots| == BuffersAfter(k) && pool.Waiting(|pool.slots|)
    && At(pool.book.ledger, k, k, BuffersAfter(k), BuffersAfter(k)) && !pool.book.ledger.stopped
    && NothingUnknown(pool.book.ledger, pool.book.native)
  }

  /** Nothing is in flight, and no budget was refused. */
  ghost predicate Over(pool: BufferPool)
    reads pool, pool.book, pool.memory
  {
    && pool.Valid() && pool.Waiting(|pool.slots|)
    && pool.book.ledger.counters.budgetRejections == 0 && pool.book.ledger.counters.duplicateReleaseAttempts == 0
  }

  ghost function All(pool: BufferPool): set<object>
  {
    {pool, pool.book, pool.memory}
  }

  /** What went wrong stays wrong. */
  twostate predicate Steady(pool: BufferPool)
    reads pool, pool.book`answers, pool.memory`failed
  {
    && (old(pool.book.Trouble()) ==> pool.book.Trouble()) && (old(pool.memory.failed) ==> pool.memory.failed)
  }

  method TakeBuffers(pool: BufferPool, k: nat, capacities: seq<nat>) returns (ok: bool)
    requires Between(pool, k) && k < 16 && |capacities| == BuffersOf(k)
    requires forall i | 0 <= i < |capacities| :: 0 < capacities[i] <= MAX_CAPACITY
    modifies All(pool)
    ensures pool.Valid() && pool.Waiting(BuffersAfter(k)) && pool.book.native == old(pool.book.native)
    ensures pool.book.ledger.counters.budgetRejections == 0 && pool.book.ledger.counters.duplicateReleaseAttempts == 0
    ensures pool.memory.canAllocate ==> pool.refusals == old(pool.refusals)
    ensures pool.book.calls == old(pool.book.calls) && Steady(pool) && (!ok ==> Disturbed(pool.book, pool.memory))
    ensures Latched(old(pool.book.ledger), pool.book.ledger)
    ensures ok ==>
        |pool.slots| == BuffersAfter(k + 1)
        && At(pool.book.ledger, k, k, BuffersAfter(k + 1), BuffersAfter(k))
        && !pool.book.ledger.stopped && NothingUnknown(pool.book.ledger, pool.book.native)
  {
    hide At, Held, FreedOnce, AllSettled, BuffersAfter, BuffersOf, NothingUnknown, Troubled;
    ghost var b := BuffersAfter(k);
    BuffersFit(k);
    AtLive(pool.book.ledger, k, k, b, b);
    ok := true;
    var i := 0;
    while i < |capacities| && ok
      invariant 0 <= i <= |capacities| && pool.Valid() && pool.Waiting(b) && pool.book.native == old(pool.book.native)
      invariant pool.book.ledger.counters.budgetRejections == 0
          && pool.book.ledger.counters.duplicateReleaseAttempts == 0
      invariant pool.memory.canAllocate ==> pool.refusals == old(pool.refusals)
      invariant pool.book.calls == old(pool.book.calls) && Steady(pool) && (!ok ==> Disturbed(pool.book, pool.memory))
      invariant Latched(old(pool.book.ledger), pool.book.ledger)
      invariant ok ==> |pool.slots| == b + i && At(pool.book.ledger, k, k, b + i, b) && !pool.book.ledger.stopped
                       && NothingUnknown(pool.book.ledger, pool.book.native)
      decreases |capacities| - i, ok
    {
      AtLive(pool.book.ledger, k, k, b + i, b);
      var slot;
      ok, slot := pool.Allocate(capacities[i], k, b + i, b);
      if ok { i := i + 1; }
    }
  }

  /** Gives the buffers of the step back, the youngest first, whatever happened to the
      others. */
  method GiveBack(pool: BufferPool, k: nat, n: nat, done: bool) returns (ok: bool)
    requires pool.Valid() && k < 16 && n == BuffersOf(k) && |pool.slots| == BuffersAfter(k + 1)
        && pool.Waiting(BuffersAfter(k))
    requires pool.book.ledger.counters.budgetRejections == 0 && pool.book.ledger.counters.duplicateReleaseAttempts == 0
    requires done ==>
        At(pool.book.ledger, k + 1, k + 1, BuffersAfter(k + 1), BuffersAfter(k))
        && !pool.book.ledger.stopped
        && NothingUnknown(pool.book.ledger, pool.book.native)
    modifies pool`slots, pool.book`ledger, pool.memory`freed, pool.memory`failed
    ensures (old(pool.memory.failed) ==> pool.memory.failed) && (!ok ==> !pool.memory.Reliable())
    ensures Over(pool) && |pool.slots| == BuffersAfter(k + 1) && Latched(old(pool.book.ledger), pool.book.ledger)
    ensures ok && done ==> Between(pool, k + 1)
  {
    hide At, Held, FreedOnce, AllSettled, BuffersAfter, BuffersOf, NothingUnknown;
    ghost var b := BuffersAfter(k);
    BuffersFit(k);
    ok := true;
    var j := n;
    while j > 0
      invariant 0 <= j <= n && pool.Valid() && |pool.slots| == b + n
      invariant (forall i | 0 <= i < b :: pool.slots[i].attempted)
          && (forall i | b <= i < b + j :: !pool.slots[i].attempted)
      invariant forall i | b + j <= i < b + n :: pool.slots[i].attempted
      invariant pool.book.ledger.counters.budgetRejections == 0
          && pool.book.ledger.counters.duplicateReleaseAttempts == 0
      invariant (old(pool.memory.failed) ==> pool.memory.failed) && (!ok ==> !pool.memory.Reliable())
      invariant Latched(old(pool.book.ledger), pool.book.ledger)
      invariant ok && done ==> At(pool.book.ledger, k + 1, k + 1, b + n, b + n - j) && !pool.book.ledger.stopped
                               && NothingUnknown(pool.book.ledger, pool.book.native)
    {
      j := j - 1;
      var released := pool.Release(|pool.slots| - n + j, k + 1, b + n, b + n - j - 1);
      ok := ok && released;
    }
  }

  /** One step: its buffers, its call, its buffers back. */
  method Step(pool: BufferPool, k: nat, capacities: seq<nat>, shape: bool, ghost exchange: Exchange)
    returns (ok: bool)
    requires Between(pool, k) && k < 16 && |capacities| == BuffersOf(k)
    requires forall i | 0 <= i < |capacities| :: 0 < capacities[i] <= MAX_CAPACITY
    modifies All(pool)
    ensures Over(pool) && (pool.memory.canAllocate ==> pool.refusals == old(pool.refusals))
    ensures Steady(pool) && (!ok ==> Disturbed(pool.book, pool.memory))
    ensures Latched(old(pool.book.ledger), pool.book.ledger)
    ensures ok ==> shape && Between(pool, k + 1)
    ensures ok ==> pool.book.calls == old(pool.book.calls) + [Answered(exchange, CategoryOf(k).Expected())]
  {
    hide At, Held, FreedOnce, AllSettled, BuffersAfter, BuffersOf, Sane, SameBuffers, NothingUnknown, Troubled,
        CategoryOf;
    BuffersFit(k);
    ok := TakeBuffers(pool, k, capacities);
    if !ok {
      pool.ReleaseAllRemaining();
      return;
    }
    ok := Work(pool, k, shape, exchange);
    var back := GiveBack(pool, k, |capacities|, ok);
    ok := ok && back;
    if !ok { pool.ReleaseAllRemaining(); }
  }

  method Work(pool: BufferPool, k: nat, shape: bool, ghost exchange: Exchange) returns (ok: bool)
    requires k < 16 && pool.Valid() && At(pool.book.ledger, k, k, BuffersAfter(k + 1), BuffersAfter(k))
    requires !pool.book.ledger.stopped && NothingUnknown(pool.book.ledger, pool.book.native)
    modifies pool.book
    ensures pool.Valid() && pool.book.ledger.counters.budgetRejections == 0
        && pool.book.ledger.counters.duplicateReleaseAttempts == 0
    ensures Latched(old(pool.book.ledger), pool.book.ledger) && (old(pool.book.Trouble()) ==> pool.book.Trouble())
    ensures ok ==> pool.book.calls == old(pool.book.calls) + [Answered(exchange, CategoryOf(k).Expected())]
    ensures !ok && pool.book.sampled ==> pool.book.Trouble()
    ensures ok ==> shape && At(pool.book.ledger, k + 1, k + 1, BuffersAfter(k + 1), BuffersAfter(k))
                   && !pool.book.ledger.stopped && NothingUnknown(pool.book.ledger, pool.book.native)
  {
    hide At, Held, FreedOnce, AllSettled, BuffersAfter, Sane, NothingUnknown, SameBuffers, CategoryOf, Troubled;
    ghost var b, f := BuffersAfter(k + 1), BuffersAfter(k);
    ghost var was := pool.book.ledger;
    AtLive(was, k, k, b, f);
    HeldSays(was, pool.slots);
    var go, status := pool.book.Start(k, b, f, exchange);
    ghost var begun := pool.book.ledger;
    HeldSame(was, begun, pool.slots);
    ok := false;
    if go { ok := pool.book.Finish(k, status, shape, b, f); }
    if go { HeldSame(begun, pool.book.ledger, pool.slots); }
  }

  // ----- the verdict

  const PLANNED := 16

  /** The verdict over a ledger. A build that observes the native side refuses to pass
      without its report. */
  function VerdictOf(l: Ledger, native: Option<Observation>, observing: bool): string
    requires native.Some? ==> native.value.Valid()
  {
    var c := l.counters;
    if observing && native.None? then "FAIL"
    else if l.settlementUnknown || c.releasesUnknown > 0 || c.returned < c.attempted
        || (native.Some? && native.value.unknown) then "UNKNOWN"
    else if (c.observationFailures > 0 || c.samples < PLANNED + 2) && l.failureCode == "MEASUREMENT_UNAVAILABLE"
        then "INCONCLUSIVE"
    else if l.stopped || c.accepted != PLANNED || c.completed != PLANNED || c.buffersLive != 0
        || c.duplicateReleaseAttempts != 0
        || c.forbiddenSymbolAttempts != 0 then "FAIL"
    else if c.abiAttemptedTotal != ALL_CALLS || (native.Some? && !NativeComplete(native.value)) then "FAIL"
    else "PASS"
  }

  lemma CompleteSays(l: Ledger)
    requires At(l, 16, 16, 45, 45)
    ensures var c := l.counters;
            && c.attempted == c.returned == c.completed == c.accepted == 16 && c.successful == 12
            && c.abiAttemptedTotal == 106 && c.buffersAllocated == c.releasesAttempted == c.releasesSucceeded == 45
            && c.buffersLive == 0 && c.releasesUnknown == 0 && c.duplicateReleaseAttempts == 0
            && c.forbiddenSymbolAttempts == 0 && c.observationFailures == 0 && c.budgetRejections == 0
    ensures |l.abiCalls| == 7 && forall i | 0 <= i < 7 :: Made(l.abiCalls[i], CALL_LIMITS[i], CALL_LIMITS[i])
  {
    hide StepBits, Made, Weight;
    var k := 16;
    assert CallsAfter(k, 0) == 1 && CallsAfter(k, 1) == 3 && CallsAfter(k, 2) == 3 && CallsAfter(k, 3) == 6
        && CallsAfter(k, 4) == 3;
    assert SuccessesAfter(k) == 12;
  }

  /** A complete ledger is exactly what the supervisor asks of a settlement. */
  lemma CompleteIsExact(l: Ledger, n: Observation, t: Target)
    requires At(l, 16, 16, 45, 45) && AllSettled(l) && !l.stopped && !l.settlementUnknown && l.counters.samples == 18
    requires n.Valid() && NativeComplete(n) && t.scope == "L1-CRYPTO" && t.abiLimits == CRYPTO_LIMITS
    ensures l.Valid() && Exact(t, l, n) && !Unresolved(true, l, n)
  {
    hide At, NativeComplete;
    CompleteSays(l);
    NativeIsResolved(n);
    assert CRYPTO_LIMITS == CALL_LIMITS;
    assert forall i | 0 <= i < 7 :: l.abiCalls[i].unknown == 0;
  }

  lemma NativeIsResolved(n: Observation)
    requires n.Valid() && NativeComplete(n)
    ensures !n.unknown && n.stillOwned == 0 && n.quarantined == 0 && n.acquired == n.released
    ensures forall i | 0 <= i < 14 :: Supervisors.Balanced(n.calls[i])
  {
  }

  // ----- the run

  /** The material is of the kind the run goes on with. */
  ghost predicate Sound(m: Material) {
    && |m.keys| == |m.points| && (forall key <- m.keys :: 1 <= |key| <= 256) && (forall p <- m.points :: p[0] == 4)
    && (forall raw <- m.signatures :: Scalars.Valid(raw[..32]) && Scalars.Valid(raw[32..]))
  }

  /** The first k steps are over, and their calls were those of the plan. */
  ghost predicate Going(pool: BufferPool, k: nat, m: Material)
    reads pool, pool.book, pool.memory
  {
    Between(pool, k) && AsPlanned(pool.book.calls, m, k) && Sound(m)
  }

  /** What holds after any part of the run. */
  twostate predicate Onward(pool: BufferPool, ok: bool)
    reads pool, pool.book, pool.memory
  {
    && Over(pool) && (pool.memory.canAllocate ==> pool.refusals == old(pool.refusals))
    && Steady(pool) && (!ok ==> Disturbed(pool.book, pool.memory))
    && Latched(old(pool.book.ledger), pool.book.ledger)
  }

  /** One step of the plan. */
  method PlannedStep(pool: BufferPool, k: nat, capacities: seq<nat>, shape: bool, ghost m: Material,
      ghost exchange: Exchange, ghost more: Material) returns (ok: bool)
    requires Going(pool, k, m) && k < 16 && |capacities| == BuffersOf(k)
    requires forall i | 0 <= i < |capacities| :: 0 < capacities[i] <= MAX_CAPACITY
    requires shape ==> && Enough(more, k + 1) && exchange == CallOf(more, k).exchange && Sound(more)
                       && m.keys <= more.keys && m.points <= more.points && m.signatures <= more.signatures
    modifies All(pool)
    ensures Onward(pool, ok) && (ok ==> shape && Going(pool, k + 1, more))
  {
    hide Between, Over, AsPlanned, CallOf, Enough, Sound, CategoryOf, Disturbed, Latched;
    ghost var calls := pool.book.calls;
    ok := Step(pool, k, capacities, shape, exchange);
    if ok { NextCall(calls, m, k, more, exchange); }
  }

  /** Three keys. */
  method GenerateKeys(pool: BufferPool) returns (ok: bool, m: Material)
    requires Going(pool, 1, Material([], [], []))
    modifies All(pool)
    ensures Onward(pool, ok)
    ensures ok ==> Going(pool, 4, m) && |m.keys| == 3 && m.signatures == []
  {
    hide Between, Over, AsPlanned, Disturbed;
    BetweenIsOver(pool, 1);
    ok, m := true, Material([], [], []);
    for i := 0 to 3
      invariant ok && Going(pool, 1 + i, m) && Onward(pool, ok) && |m.keys| == i && m.signatures == []
    {
      var written, pointLength, buffer, point := AnyKey();
      var shape := 1 <= written <= 256 && pointLength == 65 && point[0] == 4;
      var key := if shape then buffer[..written] else [];
      var more := Material(m.keys + [key], m.points + [point], []);
      ok := PlannedStep(pool, 1 + i, [256, 65, 16], shape, m, KeyMade(key, point), more);
      m := more;
      if !ok { return; }
    }
  }

  type KeyBuffer = b: Bytes | |b| == 256 witness seq(256, i => 0)

  /** What the generator wrote. */
  method AnyKey() returns (written: nat, pointLength: nat, buffer: KeyBuffer, point: Scalars.Point)
  {
    written, pointLength, buffer, point := *, *, *, *;
  }

  method AnySignature() returns (written: nat, raw: Raw)
  {
    written, raw := *, *;
  }

  /** The certificates made of the material. */
  ghost predicate Issued(certs: seq<Bytes>, m: Material, n: nat) {
    && n <= 3 && |certs| == n == |m.signatures| && |m.points| == |m.keys| == 3
    && forall i | 0 <= i < n :: certs[i] == CertificateOf(m, i)
  }

  /** One more certificate, signed with the first key. */
  method SignOne(pool: BufferPool, i: nat, m: Material) returns (ok: bool, cert: Bytes, more: Material)
    requires i < 3 && Going(pool, 4 + i, m) && |m.keys| == 3 && |m.signatures| == i
    modifies All(pool)
    ensures Onward(pool, ok)
    ensures ok ==> Going(pool, 5 + i, more) && more.keys == m.keys && more.points == m.points
    ensures ok ==> |more.signatures| == i + 1 && more.signatures[..i] == m.signatures && cert == CertificateOf(more, i)
  {
    hide Between, Over, AsPlanned, Disturbed, Certificate, TbsBody, DerWrap, SerialOf, Scalars.Valid, BE,
         Reader.Read, Said;
    SerialIsPositive(i);
    assert m.points[i] in m.points && m.keys[0] in m.keys;
    var built, tbs := BuildTbs(RoleOf(i), SerialOf(i), m.points[i]);
    if !built {
      // The builder never refuses: the point is uncompressed and the serial positive.
      assert false;
    }
    var written, raw := AnySignature();
    var assembled;
    assembled, cert := AssembleCertificate(tbs, raw);
    more := m.(signatures := m.signatures + [raw]);
    ok := PlannedStep(pool, 4 + i, [|m.keys[0]|, 65, 32, 64, 8], written == 64 && assembled, m,
                      CertificateSigned(m.keys[0], m.points[0], tbs, raw), more);
  }

  /** Three certificates. */
  method SignCertificates(pool: BufferPool, keyed: Material) returns (ok: bool, certs: seq<Bytes>, m: Material)
    requires Going(pool, 4, keyed) && |keyed.keys| == 3 && keyed.signatures == []
    modifies All(pool)
    ensures Onward(pool, ok)
    ensures ok ==> Going(pool, 7, m) && Issued(certs, m, 3)
  {
    hide Between, Over, AsPlanned, Disturbed, Certificate, TbsBody, DerWrap, SerialOf;
    BetweenIsOver(pool, 4);
    ok, certs, m := true, [], keyed;
    for i := 0 to 3
      invariant ok && Going(pool, 4 + i, m) && Onward(pool, ok) && Issued(certs, m, i)
    {
      var cert;
      ok, cert, m := SignOne(pool, i, m);
      if !ok { return; }
      certs := certs + [cert];
    }
  }

  /** One verification; of the signature with one bit turned in the second round. */
  method VerifyOne(pool: BufferPool, j: nat, certs: seq<Bytes>, m: Material) returns (ok: bool)
    requires j < 6 && Going(pool, 7 + j, m) && Issued(certs, m, 3)
    modifies All(pool)
    ensures Onward(pool, ok) && (ok ==> Going(pool, 8 + j, m))
  {
    hide Between, Over, AsPlanned, Disturbed, Extract, Certificate, TbsBody, DerWrap, SerialOf, Scalars.Valid;
    var i := j % 3;
    var raw := new Byte[64](i => 0);
    var extracted, tbs := ExtractCertificate(certs[i], raw);
    assert m.signatures[i] in m.signatures;
    TakenApart(RoleOf(i), SerialOf(i), m.points[i], m.signatures[i]);
    if !extracted {
      // What the run assembled can always be taken apart again.
      assert false;
    }
    assert raw[..] == m.signatures[i];
    if j >= 3 { raw[0] := if raw[0] % 2 == 0 then raw[0] + 1 else raw[0] - 1; }
    ok := PlannedStep(pool, 7 + j, [65, 32, 64], true, m, SignatureChecked(m.points[0], tbs, raw[..]), m);
  }

  /** Six verifications. */
  method VerifyCertificates(pool: BufferPool, certs: seq<Bytes>, m: Material) returns (ok: bool)
    requires Going(pool, 7, m) && Issued(certs, m, 3)
    modifies All(pool)
    ensures Onward(pool, ok) && (ok ==> Going(pool, 13, m))
  {
    hide Between, Over, AsPlanned, Disturbed, Issued, Sound;
    BetweenIsOver(pool, 7);
    ok := true;
    for j := 0 to 6
      invariant ok && Going(pool, 7 + j, m) && Onward(pool, ok)
    {
      ok := VerifyOne(pool, j, certs, m);
      if !ok { return; }
    }
  }

  /** The server's and the client's certificate in their roles, and the server's in the
      client's. */
  method CheckPolicies(pool: BufferPool, certs: seq<Bytes>, m: Material) returns (ok: bool)
    requires Going(pool, 13, m) && Issued(certs, m, 3)
    modifies All(pool)
    ensures Onward(pool, ok) && (ok ==> Going(pool, 16, m))
  {
    hide Between, Over, AsPlanned, Disturbed, Extract, Certificate, TbsBody, DerWrap, SerialOf;
    BetweenIsOver(pool, 13);
    ok := true;
    for j := 0 to 3
      invariant ok && Going(pool, 13 + j, m) && Onward(pool, ok)
    {
      var index := if j == 1 then 2 else 1;
      var role := if j == 0 then 1 else 2;
      assert m.signatures[index] in m.signatures;
      TakenApart(RoleOf(index), SerialOf(index), m.points[index], m.signatures[index]);
      ok := PlannedStep(pool, 13 + j, [|certs[index]|], true, m, PolicyChecked(certs[index], role), m);
      if !ok { return; }
    }
  }

  lemma BetweenIsOver(pool: BufferPool, k: nat)
    requires Between(pool, k)
    ensures Over(pool)
  {
    AtLive(pool.book.ledger, k, k, BuffersAfter(k), BuffersAfter(k));
    hide At, Held, FreedOnce;
  }

  /** A ledger nothing has happened to yet. */
  ghost predicate Untouched(l: Ledger) {
    At(l, 0, 0, 0, 0) && AllSettled(l) && !l.stopped && !l.settlementUnknown
  }

  lemma NoBits()
    ensures StepBits(0) == 0
  {
  }

  lemma FreshCounters()
    ensures var c := FreshLedger().counters; c == Ideal(0, 0, 0, 0, c)
  {
    hide StepBits, Weight;
    NoBits();
    var w: seq<nat> := seq(32, i => 0);
    assert forall i | 0 <= i < 32 :: w[i] == 0;
    var zero: nat := 0;
    assert CallsAfter(zero, 0) == 0 && CallsAfter(zero, 1) == 0 && CallsAfter(zero, 2) == 0
        && CallsAfter(zero, 3) == 0 && CallsAfter(zero, 4) == 0;
    assert FreshLedger().counters == CountersOf(w);
  }

  lemma NoCallsAt(calls: seq<CallCounts>, zero: nat)
    requires |calls| == 7 && zero == 0 && forall i | 0 <= i < 7 :: calls[i] == NO_CALLS
    ensures CallsAt(calls, zero, zero, zero, zero)
  {
    assert forall i | 0 <= i < 5 :: CallsAfter(zero, i) == 0;
  }

  lemma FreshCalls()
    ensures CallsAt(seq(7, i => NO_CALLS), 0, 0, 0, 0)
  {
    hide CallsAt;
    NoCallsAt(seq(7, i => NO_CALLS), 0);
  }

  lemma FreshIsUntouched()
    ensures Untouched(FreshLedger())
  {
    hide Weight, StepBits, Ideal, CountersOf, CallsAt, CallsAfter;
    FreshCounters();
    FreshCalls();
  }

  /** Every buffer that was handed out got its one release attempt, and the ledger says so. */
  ghost predicate Settled(l: Ledger, memory: Memory)
    reads memory
  {
    && (forall k: nat :: multiset(memory.freed)[k] == if k < memory.given && memory.canFree then 1 else 0)
    && l.counters.buffersAllocated == l.counters.releasesAttempted == memory.given
    && l.counters.releasesAttempted == l.counters.releasesSucceeded + l.counters.releasesUnknown
    && l.counters.buffersAllocated == l.counters.releasesSucceeded + l.counters.buffersLive
    && l.counters.buffersLive <= MAX_LIVE
    && l.counters.budgetRejections == 0 && l.counters.duplicateReleaseAttempts == 0
  }

  lemma OverIsSettled(pool: BufferPool)
    requires Over(pool)
    ensures Settled(pool.book.ledger, pool.memory)
  {
    hide Sane, Attempts, Successes;
    AllAttempted(pool.slots);
  }

  lemma StartIsBetween(pool: BufferPool)
    requires pool.Valid() && pool.slots == [] && At(pool.book.ledger, 0, 0, 0, 0) && AllSettled(pool.book.ledger)
        && !pool.book.ledger.stopped
    ensures Between(pool, 0)
  {
    hide At, Held, FreedOnce, AllSettled;
    assert BuffersAfter(0) == 0;
  }

  lemma NothingHeld(l: Ledger)
    requires At(l, 0, 0, 0, 0)
    ensures Held(l, [])
  {
    hide StepBits, Weight;
    AtIsSane(l, 0, 0, 0, 0);
    assert forall i | 0 <= i < 5 :: CallsAfter(0, i) == 0;
  }

  lemma EndIsComplete(pool: BufferPool)
    requires Between(pool, 16)
    ensures At(pool.book.ledger, 16, 16, 45, 45) && pool.memory.given == 45 && !pool.book.ledger.stopped
        && NothingUnknown(pool.book.ledger, pool.book.native)
  {
    hide At, Held, FreedOnce, AllSettled;
    assert BuffersAfter(16) == 45;
  }

  /** The sixteen steps. */
  method Steps(pool: BufferPool) returns (ok: bool, m: Material)
    requires Going(pool, 0, Material([], [], []))
    modifies All(pool)
    ensures Onward(pool, ok) && (ok ==> Going(pool, 16, m))
  {
    hide Between, Over, AsPlanned, Disturbed, Sound, Issued;
    m := Material([], [], []);
    ok := PlannedStep(pool, 0, [], true, m, AbiVersion, m);
    if !ok { return; }
    ok, m := GenerateKeys(pool);
    if !ok { return; }
    var certs;
    ok, certs, m := SignCertificates(pool, m);
    if !ok { return; }
    ok := VerifyCertificates(pool, certs, m);
    if !ok { return; }
    ok := CheckPolicies(pool, certs, m);
  }

  lemma EarlySettled(l: Ledger, m: Ledger, memory: Memory)
    requires At(l, 0, 0, 0, 0) && Measured(l, m) && memory.given == 0 && memory.freed == []
    ensures Settled(m, memory)
  {
    hide StepBits, Weight;
  }

  /** A measurement leaves a settled ledger settled. */
  lemma MeasuredIsSettled(l: Ledger, m: Ledger, memory: Memory)
    requires Settled(l, memory) && Measured(l, m) && |l.abiCalls| == 7
    ensures Settled(m, memory) && (AllSettled(l) ==> AllSettled(m))
  {
    hide At, Sane;
    MeasuredKeeps(l, m, 0, 0, 0, 0);
  }

  lemma CompleteSaysAt(l: Ledger)
    ensures At(l, 16, 16, 45, 45) ==>
        var c := l.counters;
        && c.attempted == c.returned == c.completed == c.accepted == 16 && c.abiAttemptedTotal == 106
        && c.buffersLive == 0 && c.releasesUnknown == 0 && c.duplicateReleaseAttempts == 0
        && c.forbiddenSymbolAttempts == 0
  {
    if At(l, 16, 16, 45, 45) { CompleteSays(l); }
  }

  /** The library's own report is there if it is observed, and if it is there it is complete. */
  ghost predicate Reported(book: Book, observing: bool)
    reads book`native
  {
    && (observing ==> book.native.Some?)
    && (book.native.Some? ==> book.native.value.Valid() && NativeComplete(book.native.value))
  }

  /** The final measurement and the verdict over a run whose steps all went well. */
  method Conclude(pool: BufferPool, observing: bool, ghost m: Material) returns (r: int)
    requires Going(pool, 16, m)
    modifies pool.book`ledger, pool.book`answers
    ensures r in {0, 10} && Settled(pool.book.ledger, pool.memory)
    ensures r == 0 ==> Passed(pool.book, pool.memory, observing)
    ensures (old(pool.book.Trouble()) ==> pool.book.Trouble()) && Latched(old(pool.book.ledger), pool.book.ledger)
    ensures r == 10 && !Disturbed(pool.book, pool.memory) && Reported(pool.book, observing) ==>
        && !pool.book.ledger.stopped
        && (pool.book.ledger.failureCode == "MEASUREMENT_UNAVAILABLE" || pool.book.ledger.settlementUnknown)
  {
    hide At, Held, Between, Over, Settled, AllSettled, Core, FreedOnce, NativeComplete, Sane, Troubled, AllAsPlanned,
        AsPlanned;
    r := 10;
    ghost var was := pool.book.ledger;
    EndIsComplete(pool);
    BetweenIsOver(pool, 16);
    OverIsSettled(pool);
    AtCalls(was, 16, 45);
    var seen := pool.book.Observe("after_final_settlement");
    MeasuredKeeps(was, pool.book.ledger, 16, 16, 45, 45);
    MeasuredIsSettled(was, pool.book.ledger, pool.memory);
    if !seen || (pool.book.native.Some? && !pool.book.native.value.Valid()) { return; }
    AllSixteen(pool.book.calls, m);
    CompleteSaysAt(pool.book.ledger);
    ghost var native := pool.book.native;
    if native.Some? && NativeComplete(native.value) { NativeIsResolved(native.value); }
    if VerdictOf(pool.book.ledger, pool.book.native, observing) == "PASS" {
      r := 0;
    }
  }

  lemma AtCalls(l: Ledger, k: nat, b: nat)
    requires At(l, k, k, b, b)
    ensures |l.abiCalls| == 7
  {
    hide StepBits;
  }

  /** What a result of zero stands for. */
  ghost predicate Passed(book: Book, memory: Memory, observing: bool)
    reads book, memory
  {
    hide At, AllSettled, NativeComplete, AllAsPlanned;
    && At(book.ledger, 16, 16, 45, 45) && AllSettled(book.ledger) && memory.given == 45
    && (exists m :: AllAsPlanned(book.calls, m))
    && !book.ledger.stopped && !book.ledger.settlementUnknown
    && (book.native.Some? ==> book.native.value.Valid() && NativeComplete(book.native.value))
    && (observing ==> book.native.Some?)
  }

  /** The whole run, over a ledger nothing has happened to. Whatever anybody answers, what
      was handed out is accounted for when it returns. */
  method RunCryptoSequence(book: Book, memory: Memory, observing: bool) returns (r: int)
    requires Untouched(book.ledger) && memory.given == 0 && memory.freed == [] && book.calls == []
    modifies book, memory
    ensures r in {0, 10} && Settled(book.ledger, memory)
    ensures r == 0 ==> Passed(book, memory, observing)
    ensures !Disturbed(book, memory) && Reported(book, observing) && old(book.ledger).failureCode == "NONE" ==> r == 0
  {
    hide At, Held, Between, Over, Settled, AllSettled, Core, FreedOnce, NativeComplete, Passed, Troubled, AsPlanned;
    r := 10;
    ghost var was := book.ledger;
    AtCalls(was, 0, 0);
    var seen := book.Observe("before_work");
    EarlySettled(was, was, memory);
    MeasuredKeeps(was, book.ledger, 0, 0, 0, 0);
    MeasuredIsSettled(was, book.ledger, memory);
    if !seen { return; }
    NothingHeld(book.ledger);
    var pool := new BufferPool(book, memory);
    StartIsBetween(pool);
    NoneYet(Material([], [], []));
    ghost var begun := book.ledger;
    var ok, m := Steps(pool);
    if ok {
      r := Conclude(pool, observing, m);
    } else {
      OverIsSettled(pool);
    }
  }

  /** A run that passed, with one sample for every step and two more, is one the
      supervisor passes too, and everything about it is settled. */
  lemma PassedIsExact(book: Book, memory: Memory, t: Target)
    requires Passed(book, memory, true) && book.ledger.counters.samples == 18
    requires t.scope == "L1-CRYPTO" && t.abiLimits == CRYPTO_LIMITS
    ensures book.ledger.Valid() && Exact(t, book.ledger, book.native.value)
        && !Unresolved(true, book.ledger, book.native.value)
  {
    hide At, NativeComplete, AllSettled, Exact, Unresolved;
    CompleteIsExact(book.ledger, book.native.value, t);
  }
}

/** The ledger of a crypto run: call budgets, a monotone clock, resource samples and the
    first failure, updated in place by every call that is made. */
module CryptoLedgers {
  import opened WireBytes
  import opened Settlements

  /** C++ unsigned increment. */
  function Inc(n: U32): U32 {
    if n == 0xffff_ffff then 0 else n + 1
  }

  /** Latches the first failure. */
  function Stopped(l: Ledger, step: string, status: Int32, code: string): (r: Ledger)
    ensures r.abiCalls == l.abiCalls && r.counters == l.counters && r.limits == l.limits && r.stopped
    ensures l.stopped ==>
        r.firstFailure == l.firstFailure && r.failureCode == l.failureCode
        && r.firstStatus == l.firstStatus
  {
    var first := if l.stopped then l else l.(firstFailure := step, firstStatus := status, failureCode := code);
    first.(settlementUnknown := l.settlementUnknown || code == "SETTLEMENT_UNKNOWN", stopped := true)
  }

  /** A reading that is there and, once the clock runs, neither goes back nor reaches the
      limit. */
  predicate InBounds(reading: Option<U64>, running: bool, limits: Limits) {
    && reading.Some?
    && (running ==> && limits.lastMs <= reading.value
                    && limits.startMs <= reading.value < limits.startMs + limits.maxElapsedMs)
  }

  /** The clock of the ledger: monotone, and closed at its limit for good. */
  function Clocked(l: Ledger, step: string, reading: Option<U64>): (r: (bool, Ledger))
    ensures r.1.abiCalls == l.abiCalls && r.1.counters == l.counters
    ensures (l.stopped ==> r.1.stopped) && (l.settlementUnknown ==> r.1.settlementUnknown)
    ensures r.0 && l.clockInitialized ==> !l.stopped && r.1.limits.elapsedMs < l.limits.maxElapsedMs
    ensures r.0 && !l.stopped ==> !r.1.stopped
    ensures !r.1.stopped ==> r.1.failureCode == l.failureCode && r.1.settlementUnknown == l.settlementUnknown
    ensures !l.stopped && InBounds(reading, l.clockInitialized, l.limits) ==> r.0
  {
    if reading.None? then (false, Stopped(l, step, -1, "MEASUREMENT_UNAVAILABLE"))
    else if !l.clockInitialized then
      (true, l.(clockInitialized := true, limits := l.limits.(startMs := reading.value, lastMs := reading.value,
          elapsedMs := 0)))
    else if reading.value < l.limits.lastMs then (false, Stopped(l, step, -1, "MEASUREMENT_UNAVAILABLE"))
    else
      // The unsigned difference.
      var elapsed := (reading.value - l.limits.startMs) % 0x1_0000_0000_0000_0000;
      var now := l.(limits := l.limits.(lastMs := reading.value, elapsedMs := elapsed));
      if elapsed >= l.limits.maxElapsedMs then (false, Stopped(now, "deadline_exceeded", -1, "BUDGET_EXCEEDED"))
          else (!l.stopped, now)
  }

  // ----- what a ledger counts

  /** How often each category may be called: abi, generate, sign, verify, policy,
      allocation, free. */
  const CALL_LIMITS: seq<nat> := [1, 3, 3, 6, 3, 45, 45]
  const ALL_CALLS := 106
  const ALLOCATION := 5
  const FREEING := 6

  function TotalAttempted(calls: seq<CallCounts>): nat
    requires |calls| == 7
  {
    calls[0].attempted + calls[1].attempted + calls[2].attempted + calls[3].attempted + calls[4].attempted
    + calls[5].attempted + calls[6].attempted
  }

  /** Every attempt is counted once and none beyond its budget; each one that is over was
      either settled or is unknown. One call of the category flying is not over yet. */
  predicate SaneBut(l: Ledger, flying: int) {
    && |l.abiCalls| == 7
    && l.counters.abiAttemptedTotal == TotalAttempted(l.abiCalls)
    && forall i | 0 <= i < 7 :: SaneCalls(l.abiCalls[i], CALL_LIMITS[i], if i == flying then 1 else 0)
  }

  predicate SaneCalls(c: CallCounts, limit: nat, flying: nat) {
    && c.attempted <= limit && c.settled + c.unknown + flying == c.attempted
    && c.accepted <= c.returned && c.returned + flying <= c.attempted
  }

  predicate Sane(l: Ledger) { SaneBut(l, -1) }

  /** The part of a ledger that measurements do not touch. */
  function Core(l: Ledger): (seq<CallCounts>, Counters) {
    (l.abiCalls, l.counters.(observationAttempts := 0, observationFailures := 0, samples := 0,
                             handlesFirst := 0, handlesLast := 0, handlesMaxSampled := 0))
  }

  /** What is latched stays; until the run is stopped there is nothing to latch. */
  predicate Latched(l: Ledger, m: Ledger) {
    && (l.stopped ==> m.stopped) && (l.settlementUnknown ==> m.settlementUnknown)
    && (!m.stopped ==> m.failureCode == l.failureCode && m.settlementUnknown == l.settlementUnknown)
  }

  /** m follows l, and nothing but measurements lies between. */
  predicate Measured(l: Ledger, m: Ledger) {
    Core(m) == Core(l) && Latched(l, m)
  }

  // ----- the sixteen steps, in their order

  datatype Category = Abi | GenerateKey | SignCertificate | VerifyPositive | VerifyNegative | PolicyPositive
      | PolicyNegative {
    function Index(): (i: nat)
      ensures i < 5
    {
      match this
      case Abi => 0 case GenerateKey => 1 case SignCertificate => 2
      case VerifyPositive => 3 case VerifyNegative => 3
      case PolicyPositive => 4 case PolicyNegative => 4
    }

    predicate Negative() { this == VerifyNegative || this == PolicyNegative }

    function Expected(): int {
      if this == Abi then ABI_VERSION else if this.Negative() then VERIFICATION_REJECTED else STATUS_OK
    }
  }

  const ABI_VERSION := 3
  const STATUS_OK := 0
  const RESOURCE_LIMIT := 3
  const VERIFICATION_REJECTED := 8

  const STEP_NAMES := [
    "abi", "gen_issuer", "gen_server", "gen_client", "sign_issuer_cert", "sign_server_cert", "sign_client_cert",
    "verify_issuer_valid", "verify_server_valid", "verify_client_valid", "verify_issuer_tampered",
    "verify_server_tampered", "verify_client_tampered", "policy_server_valid", "policy_client_valid",
        "policy_role_mismatch"
  ]

  function StepName(k: nat): string {
    if k < 16 then STEP_NAMES[k] else ""
  }

  /** What the k-th step calls. */
  function CategoryOf(k: nat): Category {
    if k == 0 then Abi else if k < 4 then GenerateKey else if k < 7 then SignCertificate
    else if k < 10 then VerifyPositive else if k < 13 then VerifyNegative
    else if k < 15 then PolicyPositive else PolicyNegative
  }

  /** Another call of a category is reserved; None says that its budget is spent. */
  function ReservedCategory(c: Counters, category: Category): Option<Counters> {
    match category
    case Abi => if c.abiReserved >= 1 then None else Some(c.(abiReserved := Inc(c.abiReserved)))
    case GenerateKey => if c.generateReserved >= 3 then None else Some(c.(generateReserved := Inc(c.generateReserved)))
    case SignCertificate => if c.encodeSignReserved >= 3 then None
        else Some(c.(encodeSignReserved := Inc(c.encodeSignReserved)))
    case VerifyPositive =>
      if c.verifyReserved >= 6 || c.verifyPositiveReserved >= 3 then None
      else Some(c.(verifyReserved := Inc(c.verifyReserved), verifyPositiveReserved := Inc(c.verifyPositiveReserved)))
    case VerifyNegative =>
      if c.verifyReserved >= 6 || c.verifyNegativeReserved >= 3 then None
      else Some(c.(verifyReserved := Inc(c.verifyReserved), verifyNegativeReserved := Inc(c.verifyNegativeReserved)))
    case _ => if c.policyReserved >= 3 then None else Some(c.(policyReserved := Inc(c.policyReserved)))
  }

  /** How many buffers the k-th step needs. */
  function BuffersOf(k: nat): nat {
    if k == 0 then 0 else if k < 4 then 3 else if k < 7 then 5 else if k < 13 then 3 else 1
  }

  function Span(k: nat, first: nat, count: nat): nat {
    if k <= first then 0 else if k - first <= count then k - first else count
  }

  /** How many of the first k steps call the i-th category. */
  function CallsAfter(k: nat, i: nat): nat {
    match i
    case 0 => Span(k, 0, 1) case 1 => Span(k, 1, 3) case 2 => Span(k, 4, 3) case 3 => Span(k, 7, 6)
    case _ => Span(k, 13, 3)
  }

  function BuffersAfter(k: nat): nat {
    3 * Span(k, 1, 3) + 5 * Span(k, 4, 3) + 3 * Span(k, 7, 6) + Span(k, 13, 3)
  }

  function SuccessesAfter(k: nat): nat {
    Span(k, 0, 10) + Span(k, 13, 2)
  }

  /** A bit for each of the first k steps. */
  function StepBits(k: nat): (mask: U32)
    requires k <= 16
  {
    Weights();
    WeightMonotone(k, 16);
    Weight(k) - 1
  }

  function Weight(k: nat): (w: nat)
    ensures w > 0
  {
    if k == 0 then 1 else 2 * Weight(k - 1)
  }

  function WithBit(mask: U32, k: nat): U32 {
    if mask / Weight(k) % 2 == 1 then mask else (mask + Weight(k)) % 0x1_0000_0000
  }

  lemma Weights()
    ensures Weight(16) == 0x1_0000
  {
    assert Weight(4) == 16;
    assert Weight(8) == 256;
    assert Weight(12) == 4096;
  }

  lemma {:induction false} WeightMonotone(i: nat, j: nat)
    requires i <= j
    ensures Weight(i) <= Weight(j)
  {
    if i < j { WeightMonotone(i, j - 1); }
  }

  lemma Quotient(w: nat)
    requires w > 0
    ensures (w - 1) / w == 0
  {
  }

  /** The next step's bit is still clear. */
  lemma NextBit(k: nat)
    requires k < 16
    ensures WithBit(StepBits(k), k) == StepBits(k + 1)
  {
    Weights();
    WeightMonotone(k + 1, 16);
    var w := Weight(k);
    Quotient(w);
    assert WithBit(w - 1, k) == (w - 1 + w) % 0x1_0000_0000;
  }

  // ----- the exact state after r steps returned, k of them completed, b buffers were
  // allocated and f of them freed

  predicate Position(r: nat, k: nat, b: nat, f: nat) {
    k <= r <= 16 && r <= k + 1 && f <= b <= 45
  }

  function Ideal(r: nat, k: nat, b: nat, f: nat, c: Counters): Counters
    requires Position(r, k, b, f)
  {
    c.(attemptedSteps := StepBits(r), returnedSteps := StepBits(r), completedSteps := StepBits(k),
       attempted := r, returned := r, completed := k, successful := SuccessesAfter(k), accepted := k,
       abiReserved := CallsAfter(r, 0), generateReserved := CallsAfter(r, 1), encodeSignReserved := CallsAfter(r, 2),
       verifyReserved := CallsAfter(r, 3), verifyPositiveReserved := Span(r, 7, 3),
           verifyNegativeReserved := Span(r, 10, 3),
       policyReserved := CallsAfter(r, 4),
       budgetRejections := 0, abiAttemptedTotal := r + b + f, forbiddenSymbolAttempts := 0,
       buffersAllocated := b, buffersLive := b - f, releasesAttempted := f, releasesSucceeded := f,
           releasesUnknown := 0,
       duplicateReleaseAttempts := 0, observationFailures := 0)
  }

  /** n calls, all returned and m of them accepted. */
  predicate Made(c: CallCounts, n: nat, m: nat) {
    c.attempted == n && c.returned == n && c.accepted == m && c.returnedFailure == 0 && c.settled + c.unknown == n
  }

  predicate CallsAt(calls: seq<CallCounts>, r: nat, k: nat, b: nat, f: nat) {
    && |calls| == 7
    && (forall i | 0 <= i < 5 :: Made(calls[i], CallsAfter(r, i), CallsAfter(k, i)))
    && Made(calls[ALLOCATION], b, b) && Made(calls[FREEING], f, f)
  }

  predicate At(l: Ledger, r: nat, k: nat, b: nat, f: nat) {
    && CallsAt(l.abiCalls, r, k, b, f) && Position(r, k, b, f)
    && l.counters == Ideal(r, k, b, f, l.counters)
  }

  /** One category moves on, the others stay. */
  lemma CallsMove(calls: seq<CallCounts>, r: nat, k: nat, q: nat, n: nat, b: nat, f: nat, i: nat, c: CallCounts)
    requires CallsAt(calls, r, k, b, f) && i < 5 && Made(c, CallsAfter(q, i), CallsAfter(n, i))
    requires forall j | 0 <= j < 5 && j != i ::
        CallsAfter(q, j) == CallsAfter(r, j)
        && CallsAfter(n, j) == CallsAfter(k, j)
    ensures CallsAt(calls[i := c], q, n, b, f)
  {
    hide CallsAfter, Made;
  }

  /** No call is unknown. */
  predicate AllSettled(l: Ledger) {
    |l.abiCalls| == 7 && forall i | 0 <= i < 7 :: l.abiCalls[i].unknown == 0
  }

  lemma AtIsSane(l: Ledger, r: nat, k: nat, b: nat, f: nat)
    requires At(l, r, k, b, f)
    ensures Sane(l)
  {
  }

  // ----- the updates

  function WithCalls(l: Ledger, i: nat, c: CallCounts): Ledger
    requires i < |l.abiCalls|
  {
    l.(abiCalls := l.abiCalls[i := c])
  }

  /** A call of category i is about to be made. */
  function Attempted(l: Ledger, i: nat): Ledger
    requires |l.abiCalls| == 7 && i < 7
  {
    WithCalls(l, i, l.abiCalls[i].(attempted := Inc(l.abiCalls[i].attempted)))
    .(counters := l.counters.(abiAttemptedTotal := Inc(l.counters.abiAttemptedTotal)))
  }

  /** The call threw: nobody knows what it did. */
  function Thrown(l: Ledger, i: nat): Ledger
    requires |l.abiCalls| == 7 && i < 7
  {
    WithCalls(l, i, l.abiCalls[i].(unknown := Inc(l.abiCalls[i].unknown)))
  }

  /** The call returned, and is settled unless its native side is unknown. */
  function Returned(l: Ledger, i: nat, known: bool): Ledger
    requires |l.abiCalls| == 7 && i < 7
  {
    var c := l.abiCalls[i].(returned := Inc(l.abiCalls[i].returned));
    WithCalls(l, i, if known then c.(settled := Inc(c.settled)) else c.(unknown := Inc(c.unknown)))
  }

  function Taken(l: Ledger, i: nat): Ledger
    requires |l.abiCalls| == 7 && i < 7
  {
    WithCalls(l, i, l.abiCalls[i].(accepted := Inc(l.abiCalls[i].accepted)))
  }

  function Refused(l: Ledger, i: nat): Ledger
    requires |l.abiCalls| == 7 && i < 7
  {
    WithCalls(l, i, l.abiCalls[i].(returnedFailure := Inc(l.abiCalls[i].returnedFailure)))
  }

  /** There is room for another call of every category that has not spent its budget. */
  lemma TotalIsBelow(l: Ledger, i: nat)
    requires Sane(l) && i < 7 && l.abiCalls[i].attempted < CALL_LIMITS[i]
    ensures l.counters.abiAttemptedTotal < ALL_CALLS
    ensures SaneBut(Attempted(l, i), i)
  {
    assert forall j | 0 <= j < 7 :: SaneCalls(l.abiCalls[j], CALL_LIMITS[j], 0);
  }

  /** Counts of one category may be replaced by other sane ones with as many attempts. */
  lemma SaneReplaced(l: Ledger, i: nat, flying: int, c: CallCounts)
    requires SaneBut(l, flying) && i < 7 && (flying == -1 || flying == i)
    requires c.attempted == l.abiCalls[i].attempted && SaneCalls(c, CALL_LIMITS[i], 0)
    ensures Sane(WithCalls(l, i, c))
  {
    var m := WithCalls(l, i, c);
    forall j | 0 <= j < 7 ensures SaneCalls(m.abiCalls[j], CALL_LIMITS[j], 0)
        && m.abiCalls[j].attempted == l.abiCalls[j].attempted {
      assert SaneCalls(l.abiCalls[j], CALL_LIMITS[j], if j == flying then 1 else 0);
    }
  }

  lemma ThrownIsSane(l: Ledger, i: nat)
    requires SaneBut(l, i) && i < 7
    ensures Sane(Thrown(l, i))
  {
    assert SaneCalls(l.abiCalls[i], CALL_LIMITS[i], 1);
    hide SaneBut;
    var c := l.abiCalls[i];
    SaneReplaced(l, i, i, c.(unknown := Inc(c.unknown)));
  }

  lemma ReturnedIsSane(l: Ledger, i: nat, known: bool)
    requires SaneBut(l, i) && i < 7
    ensures Sane(Returned(l, i, known)) && Returned(l, i, known).abiCalls[i].accepted < Returned(l, i,
        known).abiCalls[i].returned
  {
    assert SaneCalls(l.abiCalls[i], CALL_LIMITS[i], 1);
    hide SaneBut;
    var c := l.abiCalls[i].(returned := Inc(l.abiCalls[i].returned));
    SaneReplaced(l, i, i, if known then c.(settled := Inc(c.settled)) else c.(unknown := Inc(c.unknown)));
  }

  lemma TakenIsSane(l: Ledger, i: nat)
    requires Sane(l) && i < 7
    ensures l.abiCalls[i].accepted < l.abiCalls[i].returned ==> Sane(Taken(l, i))
    ensures Sane(Refused(l, i))
  {
    assert SaneCalls(l.abiCalls[i], CALL_LIMITS[i], 0);
    hide SaneBut;
    var c := l.abiCalls[i];
    if c.accepted < c.returned { SaneReplaced(l, i, -1, c.(accepted := Inc(c.accepted))); }
    SaneReplaced(l, i, -1, c.(returnedFailure := Inc(c.returnedFailure)));
  }
}

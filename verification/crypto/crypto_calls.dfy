/** The calls of a crypto run: each is reserved, timed, made once, judged and followed by a
    measurement, and the ledger says exactly what became of it. */
module CryptoCalls {
  import opened WireBytes
  import opened Settlements
  import opened CryptoLedgers

  // ----- what one step does to a ledger

  /** The k-th step is reserved and its call about to be made. */
  function Begun(l: Ledger, k: nat): Ledger
    requires |l.abiCalls| == 7 && ReservedCategory(l.counters, CategoryOf(k)).Some?
  {
    var reserved := l.(counters := ReservedCategory(l.counters, CategoryOf(k)).value);
    var m := Attempted(reserved, CategoryOf(k).Index());
    m.(counters := m.counters.(attemptedSteps := WithBit(m.counters.attemptedSteps, k),
        attempted := Inc(m.counters.attempted)))
  }

  /** The call of the k-th step came back. */
  function Back(l: Ledger, k: nat, known: bool): Ledger
    requires |l.abiCalls| == 7
  {
    var m := Returned(l, CategoryOf(k).Index(), known);
    m.(counters := m.counters.(returnedSteps := WithBit(m.counters.returnedSteps, k),
        returned := Inc(m.counters.returned)))
  }

  /** Its result was looked at. */
  function Completed(l: Ledger, k: nat, status: int): Ledger {
    var c := l.counters.(completedSteps := WithBit(l.counters.completedSteps, k),
        completed := Inc(l.counters.completed));
    var good := status == if CategoryOf(k) == Abi then ABI_VERSION else STATUS_OK;
    l.(counters := if good then c.(successful := Inc(c.successful)) else c)
  }

  /** It was the expected one. */
  function Approved(l: Ledger, k: nat): Ledger
    requires |l.abiCalls| == 7
  {
    var m := Taken(l, CategoryOf(k).Index());
    m.(counters := m.counters.(accepted := Inc(m.counters.accepted)))
  }

  lemma IndexOf(k: nat)
    requires k < 16
    ensures var i := CategoryOf(k).Index();
            && (forall j | 0 <= j < 5 :: CallsAfter(k + 1, j) == CallsAfter(k, j) + if j == i then 1 else 0)
            && CallsAfter(k, i) < CALL_LIMITS[i]
  {
  }

  /** The reservations after k steps. */
  predicate ReservedFor(c: Counters, k: nat) {
    && c.abiReserved == CallsAfter(k, 0) && c.generateReserved == CallsAfter(k, 1)
    && c.encodeSignReserved == CallsAfter(k, 2)
    && c.verifyReserved == CallsAfter(k, 3) && c.verifyPositiveReserved == Span(k, 7, 3)
    && c.verifyNegativeReserved == Span(k, 10, 3) && c.policyReserved == CallsAfter(k, 4)
  }

  lemma Reservable(c: Counters, k: nat)
    requires ReservedFor(c, k) && k < 16
    ensures var r := ReservedCategory(c, CategoryOf(k));
            && r.Some? && ReservedFor(r.value, k + 1)
            && r.value == c.(abiReserved := r.value.abiReserved, generateReserved := r.value.generateReserved,
                             encodeSignReserved := r.value.encodeSignReserved, verifyReserved := r.value.verifyReserved,
                             verifyPositiveReserved := r.value.verifyPositiveReserved,
                             verifyNegativeReserved := r.value.verifyNegativeReserved,
                                 policyReserved := r.value.policyReserved)
  {
  }

  lemma BegunCounters(l: Ledger, k: nat, b: nat, f: nat, known: bool)
    requires At(l, k, k, b, f) && k < 16
    ensures ReservedCategory(l.counters, CategoryOf(k)).Some?
    ensures var m := Back(Begun(l, k), k, known); m.counters == Ideal(k + 1, k, b, f, m.counters)
  {
    NextBit(k);
    Reservable(l.counters, k);
    hide StepBits, WithBit, ReservedCategory;
  }

  lemma AtBegun(l: Ledger, k: nat, b: nat, f: nat, known: bool)
    requires At(l, k, k, b, f) && k < 16
    ensures ReservedCategory(l.counters, CategoryOf(k)).Some?
    ensures l.abiCalls[CategoryOf(k).Index()].attempted < CALL_LIMITS[CategoryOf(k).Index()]
    ensures At(Back(Begun(l, k), k, known), k + 1, k, b, f)
  {
    BegunCounters(l, k, b, f, known);
    IndexOf(k);
    var i := CategoryOf(k).Index();
    assert Made(l.abiCalls[i], CallsAfter(k, i), CallsAfter(k, i));
    hide Ideal, CallsAfter, ReservedCategory, StepBits, WithBit, CategoryOf, CallsAt;
    var m := Back(Begun(l, k), k, known);
    CallsMove(l.abiCalls, k, k, k + 1, k, b, f, i, m.abiCalls[i]);
    assert m.abiCalls == l.abiCalls[i := m.abiCalls[i]];
  }

  /** A step whose expected status is a success adds one to the successes. */
  lemma SuccessesNext(k: nat)
    requires k < 16
    ensures SuccessesAfter(k + 1) == SuccessesAfter(k) + if CategoryOf(k).Negative() then 0 else 1
    ensures CategoryOf(k).Negative() <==> CategoryOf(k).Expected() != if CategoryOf(k) == Abi then ABI_VERSION
        else STATUS_OK
  {
  }

  lemma ApprovedCounters(l: Ledger, k: nat, b: nat, f: nat)
    requires At(l, k + 1, k, b, f) && k < 16
    ensures var m := Approved(Completed(l, k, CategoryOf(k).Expected()), k);
            m.counters == Ideal(k + 1, k + 1, b, f, m.counters)
  {
    hide StepBits, WithBit, CallsAfter, CallsAt, SuccessesAfter, CategoryOf, Span;
    NextBit(k);
    SuccessesNext(k);
  }

  lemma AtApproved(l: Ledger, k: nat, b: nat, f: nat)
    requires At(l, k + 1, k, b, f) && k < 16
    ensures At(Approved(Completed(l, k, CategoryOf(k).Expected()), k), k + 1, k + 1, b, f)
  {
    ApprovedCounters(l, k, b, f);
    IndexOf(k);
    var i := CategoryOf(k).Index();
    assert Made(l.abiCalls[i], CallsAfter(k + 1, i), CallsAfter(k, i));
    hide Ideal, CallsAfter, StepBits, WithBit, CategoryOf, CallsAt;
    var m := Approved(Completed(l, k, CategoryOf(k).Expected()), k);
    CallsMove(l.abiCalls, k + 1, k, k + 1, k + 1, b, f, i, m.abiCalls[i]);
    assert m.abiCalls == l.abiCalls[i := m.abiCalls[i]];
  }

  // ----- what a call leaves alone

  predicate SameBuffers(l: Ledger, m: Ledger) {
    && |l.abiCalls| == 7 == |m.abiCalls| && m.abiCalls[ALLOCATION] == l.abiCalls[ALLOCATION]
    && m.abiCalls[FREEING] == l.abiCalls[FREEING]
    && m.counters.buffersAllocated == l.counters.buffersAllocated && m.counters.buffersLive == l.counters.buffersLive
    && m.counters.releasesAttempted == l.counters.releasesAttempted
    && m.counters.releasesSucceeded == l.counters.releasesSucceeded
    && m.counters.releasesUnknown == l.counters.releasesUnknown
    && m.counters.duplicateReleaseAttempts == l.counters.duplicateReleaseAttempts
  }

  /** Only the clock moved on, and perhaps stopped the run. */
  predicate Ticked(l: Ledger, m: Ledger) {
    m.abiCalls == l.abiCalls && m.counters == l.counters && Latched(l, m)
  }

  lemma MeasuredKeeps(l: Ledger, m: Ledger, r: nat, k: nat, b: nat, f: nat)
    requires Measured(l, m) && |l.abiCalls| == 7
    ensures SameBuffers(l, m) && Latched(l, m) && (Sane(l) ==> Sane(m)) && m.abiCalls == l.abiCalls
    ensures m.counters.budgetRejections == l.counters.budgetRejections && (AllSettled(l) ==> AllSettled(m))
    ensures At(l, r, k, b, f) && m.counters.observationFailures == l.counters.observationFailures ==> At(m, r, k, b, f)
  {
    hide Made, StepBits, SaneCalls;
    var zero := m.counters.(observationAttempts := 0, observationFailures := 0, samples := 0,
                            handlesFirst := 0, handlesLast := 0, handlesMaxSampled := 0);
    assert zero == Core(m).1 == Core(l).1;
  }

  lemma TickedKeeps(l: Ledger, m: Ledger, r: nat, k: nat, b: nat, f: nat)
    requires Ticked(l, m) && |l.abiCalls| == 7
    ensures SameBuffers(l, m) && (Sane(l) ==> Sane(m)) && (At(l, r, k, b, f) <==> At(m, r, k, b, f))
    ensures AllSettled(l) ==> AllSettled(m)
  {
  }

  /** Other counters may change without harm to the sanity of the calls. */
  lemma ReservedIsSane(l: Ledger, k: nat)
    requires Sane(l) && ReservedCategory(l.counters, CategoryOf(k)).Some?
    ensures var m := l.(counters := ReservedCategory(l.counters, CategoryOf(k)).value); Sane(m) && SameBuffers(l, m)
  {
  }

  lemma BegunIsSane(l: Ledger, i: int, k: nat)
    requires SaneBut(l, i)
    ensures SaneBut(l.(counters := l.counters.(attemptedSteps := WithBit(l.counters.attemptedSteps, k),
        attempted := Inc(l.counters.attempted))), i)
  {
    hide WithBit;
  }

  lemma ReturnedMore(l: Ledger, k: nat)
    requires Sane(l)
    ensures Sane(l.(counters := l.counters.(returnedSteps := WithBit(l.counters.returnedSteps, k),
        returned := Inc(l.counters.returned))))
    ensures Sane(l.(counters := l.counters.(accepted := Inc(l.counters.accepted))))
    ensures forall status: int :: Sane(Completed(l, k, status))
  {
    hide WithBit, CategoryOf;
  }

  lemma SaneSays(l: Ledger)
    requires Sane(l)
    ensures |l.abiCalls| == 7 && SameBuffers(l, l)
  {
  }

  lemma AtSays(l: Ledger, r: nat, k: nat, b: nat, f: nat)
    requires At(l, r, k, b, f)
    ensures l.counters.budgetRejections == 0 && Sane(l)
  {
    AtIsSane(l, r, k, b, f);
    hide StepBits, CallsAt;
  }

  lemma SameTwice(l: Ledger, m: Ledger, n: Ledger)
    requires SameBuffers(l, m) && SameBuffers(m, n) && Latched(l, m) && Latched(m, n)
    ensures SameBuffers(l, n) && Latched(l, n)
  {
  }

  /** The call threw. */
  lemma ThrownSays(l: Ledger, k: nat)
    requires |l.abiCalls| == 7 && ReservedCategory(l.counters, CategoryOf(k)).Some?
        && SaneBut(Begun(l, k), CategoryOf(k).Index())
    ensures |Begun(l, k).abiCalls| == 7
    ensures var m := Thrown(Begun(l, k), CategoryOf(k).Index());
            && Sane(m) && |m.abiCalls| == 7 && SameBuffers(l, m) && Latched(l, m)
            && m.counters.budgetRejections == l.counters.budgetRejections
  {
    ThrownIsSane(Begun(l, k), CategoryOf(k).Index());
    hide WithBit, SaneBut;
  }

  /** The call came back. */
  lemma BackSays(l: Ledger, k: nat, known: bool)
    requires |l.abiCalls| == 7 && ReservedCategory(l.counters, CategoryOf(k)).Some?
        && SaneBut(Begun(l, k), CategoryOf(k).Index())
    ensures var m := Back(Begun(l, k), k, known); var i := CategoryOf(k).Index();
            && Sane(m) && |m.abiCalls| == 7 && SameBuffers(l, m) && Latched(l, m)
            && m.counters.budgetRejections == l.counters.budgetRejections
            && m.abiCalls[i].accepted < m.abiCalls[i].returned && m.stopped == l.stopped
            && (known && AllSettled(l) ==> AllSettled(m))
  {
    var i := CategoryOf(k).Index();
    ReturnedIsSane(Begun(l, k), i, known);
    ReturnedMore(Returned(Begun(l, k), i, known), k);
    hide WithBit, SaneBut;
  }

  /** Its result was counted, and accepted or not. */
  lemma JudgedSays(l: Ledger, k: nat, status: int)
    requires Sane(l) && l.abiCalls[CategoryOf(k).Index()].accepted < l.abiCalls[CategoryOf(k).Index()].returned
    ensures var m := Completed(l, k, status);
            && Sane(m) && |m.abiCalls| == 7 && SameBuffers(l, m) && Latched(l, m)
            && m.counters.budgetRejections == l.counters.budgetRejections
            && m.abiCalls == l.abiCalls && m.stopped == l.stopped && m.settlementUnknown == l.settlementUnknown
            && (AllSettled(l) ==> AllSettled(m))
    ensures var m := Approved(Completed(l, k, status), k);
            && Sane(m) && |m.abiCalls| == 7 && SameBuffers(l, m) && Latched(l, m)
            && m.counters.budgetRejections == l.counters.budgetRejections && m.stopped == l.stopped
            && (AllSettled(l) ==> AllSettled(m))
  {
    ReturnedMore(l, k);
    var i := CategoryOf(k).Index();
    var m := Completed(l, k, status);
    TakenIsSane(m, i);
    ReturnedMore(Taken(m, i), k);
    hide WithBit, SaneBut;
  }

  lemma Unsettle(l: Ledger, unknown: bool)
    requires Sane(l) && l.stopped
    ensures var m := l.(settlementUnknown := l.settlementUnknown || unknown);
            Sane(m) && (forall s | SameBuffers(s, l) && Latched(s, l) :: SameBuffers(s, m) && Latched(s, m))
                && (AllSettled(l) ==> AllSettled(m))
  {
  }

  lemma StoppedSays(l: Ledger, step: string, status: Int32, code: string)
    requires |l.abiCalls| == 7
    ensures var m := Stopped(l, step, status, code);
            && SameBuffers(l, m) && Latched(l, m) && (Sane(l) ==> Sane(m)) && m.counters == l.counters && m.stopped
            && (AllSettled(l) ==> AllSettled(m)) && (Sane(l) ==> Sane(m.(settlementUnknown := true)))
  {
  }

  /** One more measurement: the peaks, and the first, last and largest number of handles. */
  function Peaked(l: Ledger, working: U64, commit: U64, handles: U32): (m: Ledger)
    ensures Measured(l, m) && m.counters.observationFailures == l.counters.observationFailures
    ensures m.counters.samples == Inc(l.counters.samples) && m.stopped == l.stopped
  {
    var c := l.counters;
    l.(limits := l.limits.(peakWorkingSet := if working > l.limits.peakWorkingSet then working
                                             else l.limits.peakWorkingSet,
                           peakCommit := if commit > l.limits.peakCommit then commit else l.limits.peakCommit),
       counters := c.(samples := Inc(c.samples), handlesFirst := if c.samples == 0 then handles else c.handlesFirst,
                      handlesLast := handles,
                      handlesMaxSampled := if handles > c.handlesMaxSampled then handles else c.handlesMaxSampled))
  }

  /** Nothing is unknown, unless the native side says so itself. */
  predicate NothingUnknown(l: Ledger, n: Option<Observation>) {
    (n.Some? && n.value.unknown) || AllSettled(l)
  }

  // ----- what is asked of the native library, and what everybody answers

  /** One call with what goes into it and comes out of it. A digest stands with the bytes it
      is taken of. */
  datatype Exchange =
    | AbiVersion
    | KeyMade(key: Bytes, point: Bytes)
    | CertificateSigned(key: Bytes, point: Bytes, part: Bytes, signature: Bytes)
    | SignatureChecked(point: Bytes, part: Bytes, signature: Bytes)
    | PolicyChecked(certificate: Bytes, role: nat)

  datatype CallMade = Answered(exchange: Exchange, status: int) | Threw(exchange: Exchange)

  /** An answer of the world around the run, with the limits then in force. */
  datatype Answer =
    | TimeRead(reading: Option<U64>, running: bool, limits: Limits)
    | Measurement(working: U64, commit: U64, handles: U32, limits: Limits, handleLimit: U32)
    | SamplerHalts
    | SamplerSays(ok: bool)
    | NativeSays(stopped: bool, unknown: bool)
    | CallEnded(k: nat, threw: bool, status: int)
    | ShapeSeen(good: bool)
  {
    /** Nothing is wrong with it. */
    predicate Good() {
      match this
      case TimeRead(reading, running, limits) => InBounds(reading, running, limits)
      case Measurement(working, commit, handles, limits, handleLimit) =>
        && working > 0 && commit > 0 && handles > 0
        && (limits.workingSetLimitBytes > 0 ==> working <= limits.workingSetLimitBytes)
        && (limits.commitLimitBytes > 0 ==> commit <= limits.commitLimitBytes)
        && (handleLimit > 0 ==> handles <= handleLimit)
      case SamplerHalts => false
      case SamplerSays(ok) => ok
      case NativeSays(stopped, unknown) => !stopped && !unknown
      case CallEnded(k, threw, status) => !threw && k < 16
          && status == [3, 0, 0, 0, 0, 0, 0, 0, 0, 0, 8, 8, 8, 0, 0, 8][k]
      case ShapeSeen(good) => good
    }
  }

  /** Something went wrong. */
  ghost predicate Troubled(answers: seq<Answer>) {
    exists i | 0 <= i < |answers| :: !answers[i].Good()
  }

  lemma OneMore(answers: seq<Answer>, a: Answer)
    ensures Troubled(answers + [a]) <==> Troubled(answers) || !a.Good()
  {
    var more := answers + [a];
    assert more[|answers|] == a;
    if Troubled(answers) {
      var i :| 0 <= i < |answers| && !answers[i].Good();
      assert !more[i].Good();
    }
  }

  /** The expected status of the k-th step, in numbers. */
  lemma ExpectedIs(k: nat)
    requires k < 16
    ensures CategoryOf(k).Expected() == [3, 0, 0, 0, 0, 0, 0, 0, 0, 0, 8, 8, 8, 0, 0, 8][k]
  {
  }

  class Book {
    const timed: bool
    const sampled: bool
    var ledger: Ledger
    /** What was answered, and the native calls that were made. */
    ghost var answers: seq<Answer>
    ghost var calls: seq<CallMade>
    /** What the native side reports, if it is observed. */
    var native: Option<Observation>

    constructor (ledger: Ledger, native: Option<Observation>, timed: bool, sampled: bool)
      ensures this.ledger == ledger && this.native == native && this.timed == timed && this.sampled == sampled
      ensures answers == [] && calls == []
    {
      this.ledger, this.native, this.timed, this.sampled, answers, calls := ledger, native, timed, sampled, [], [];
    }

    ghost predicate Trouble()
      reads this`answers
    {
      Troubled(answers)
    }

    /** An answer goes on record. */
    ghost method Note(a: Answer)
      modifies this`answers
      ensures answers == old(answers) + [a] && (Trouble() <==> old(Trouble()) || !a.Good())
    {
      OneMore(answers, a);
      answers := answers + [a];
    }

    method Stop(step: string, status: Int32, code: string)
      modifies this`ledger
      ensures ledger == Stopped(old(ledger), step, status, code)
    {
      ledger := Stopped(ledger, step, status, code);
    }

    method CheckClock(step: string) returns (ok: bool)
      modifies this`ledger, this`answers
      ensures Ticked(old(ledger), ledger)
      ensures !timed ==> ok == !ledger.stopped
      ensures ok && !old(ledger).stopped ==> !ledger.stopped
      ensures (old(Trouble()) ==> Trouble()) && (!ok && !old(ledger).stopped ==> Trouble())
    {
      hide Troubled;
      if !timed { return !ledger.stopped; }
      var reading: Option<U64> := *;
      Note(TimeRead(reading, ledger.clockInitialized, ledger.limits));
      var result := Clocked(ledger, step, reading);
      ok, ledger := result.0, result.1;
    }

    /** One measurement of this process. */
    method Resources(working: U64, commit: U64, handles: U32) returns (ok: bool)
      modifies this`ledger, this`answers
      ensures (old(Trouble()) ==> Trouble()) && (!ok ==> Trouble())
      ensures Measured(old(ledger), ledger)
          && ledger.counters.observationFailures == old(ledger).counters.observationFailures
      ensures ledger.counters.samples == if working == 0 || commit == 0 || handles == 0
          then old(ledger).counters.samples else Inc(old(ledger).counters.samples)
      ensures ok ==> ledger.stopped == old(ledger).stopped && working != 0 && commit != 0 && handles != 0
    {
      hide Troubled, Peaked;
      Note(Measurement(working, commit, handles, ledger.limits, ledger.counters.handleLimit));
      if working == 0 || commit == 0 || handles == 0 {
        Stop("resource_observation_invalid", -1, "MEASUREMENT_UNAVAILABLE");
        return false;
      }
      var l := ledger;
      ledger := Peaked(l, working, commit, handles);
      if (l.limits.workingSetLimitBytes > 0 && working > l.limits.workingSetLimitBytes)
         || (l.limits.commitLimitBytes > 0 && commit > l.limits.commitLimitBytes)
         || (l.counters.handleLimit > 0 && handles > l.counters.handleLimit) {
        Stop("resource_budget_exceeded", -1, "BUDGET_EXCEEDED");
        return false;
      }
      ok := true;
    }

    /** The sampler: it measures, as often as it likes, and may stop the run. */
    method Sample() returns (ok: bool)
      modifies this`ledger, this`answers
      ensures Measured(old(ledger), ledger)
          && ledger.counters.observationFailures == old(ledger).counters.observationFailures
      ensures old(Trouble()) ==> Trouble()
      ensures !Trouble() ==> ok && ledger.stopped == old(ledger).stopped
    {
      hide Troubled;
      var steps: int := *;
      for i := 0 to if steps < 0 then 0 else steps
        invariant Measured(old(ledger), ledger)
            && ledger.counters.observationFailures == old(ledger).counters.observationFailures
        invariant (old(Trouble()) ==> Trouble()) && (!Trouble() ==> ledger.stopped == old(ledger).stopped)
      {
        var working, commit, handles := *, *, *;
        var fits := Resources(working, commit, handles);
        var halt: bool := *;
        if halt {
          var step, status, code := *, *, *;
          Note(SamplerHalts);
          Stop(step, status, code);
        }
      }
      ok := *;
      Note(SamplerSays(ok));
    }

    method Observe(stage: string) returns (ok: bool)
      modifies this`ledger, this`answers
      ensures Measured(old(ledger), ledger)
      ensures (old(Trouble()) ==> Trouble()) && (!ok && !old(ledger).stopped && sampled ==> Trouble())
      ensures ok ==> !ledger.stopped && ledger.counters.observationFailures == old(ledger).counters.observationFailures
    {
      hide Troubled;
      ok := CheckClock(stage);
      if !ok { return; }
      ledger := ledger.(counters := ledger.counters.(observationAttempts := Inc(ledger.counters.observationAttempts)));
      if sampled { ok := Sample(); } else { ok := false; }
      if !ok {
        ledger := ledger.(counters :=
            ledger.counters.(observationFailures := Inc(ledger.counters.observationFailures)));
        if ledger.failureCode != "BUDGET_EXCEEDED" { Stop("resource_observation_failed", -1,
            "MEASUREMENT_UNAVAILABLE"); }
        return;
      }
      ok := !ledger.stopped;
    }

    /** A call of category i, if there is budget for it. */
    method ReserveAbi(i: nat) returns (ok: bool)
      requires Sane(ledger) && i < 7
      modifies this`ledger
      ensures ok == (old(ledger).abiCalls[i].attempted < CALL_LIMITS[i])
      ensures ok ==> ledger == Attempted(old(ledger), i) && SaneBut(ledger, i)
      ensures !ok ==> Sane(ledger) && SameBuffers(old(ledger), ledger) && Latched(old(ledger), ledger)
    {
      if ledger.abiCalls[i].attempted < CALL_LIMITS[i] { TotalIsBelow(ledger, i); }
      if ledger.counters.abiAttemptedTotal >= ALL_CALLS || ledger.abiCalls[i].attempted >= CALL_LIMITS[i] {
        Reject("abi_call_budget_exceeded");
        return false;
      }
      ledger := Attempted(ledger, i);
      ok := true;
    }

    method Reject(step: string)
      modifies this`ledger
      ensures |old(ledger).abiCalls| == 7 ==> SameBuffers(old(ledger), ledger)
      ensures Latched(old(ledger), ledger) && ledger.stopped && (Sane(old(ledger)) ==> Sane(ledger))
    {
      ledger := ledger.(counters := ledger.counters.(budgetRejections := Inc(ledger.counters.budgetRejections)));
      Stop(step, -1, "BUDGET_EXCEEDED");
    }

    /** The native side moves on: what it once called unknown or stopped stays so. */
    method NativeMoves()
      modifies this`native, this`answers
      ensures (old(Trouble()) ==> Trouble()) && (native.Some? && native.value.stopped ==> Trouble())
      ensures old(native).Some? == native.Some?
      ensures native.Some? ==>
          (old(native).value.unknown ==> native.value.unknown)
          && (old(native).value.stopped ==> native.value.stopped)
    {
      hide Troubled;
      if native.None? { return; }
      var n: Observation := *;
      native := Some(n.(unknown := n.unknown || native.value.unknown, stopped := n.stopped || native.value.stopped));
      Note(NativeSays(native.value.stopped, native.value.unknown));
    }

    ghost predicate NativeLatched(was: Option<Observation>)
      reads this`native
    {
      && (was.Some? <==> native.Some?)
      && (native.Some? ==> (was.value.unknown ==> native.value.unknown) && (was.value.stopped ==> native.value.stopped))
    }

    /** Reserves the k-th step's call. */
    method Reserve(k: nat, ghost b: nat, ghost f: nat) returns (ok: bool)
      requires Sane(ledger) && k < 16
      modifies this`ledger
      ensures ok ==> ReservedCategory(old(ledger).counters, CategoryOf(k)).Some? && ledger == Begun(old(ledger), k)
                     && SaneBut(ledger, CategoryOf(k).Index())
      ensures !ok ==> Sane(ledger)
      ensures SameBuffers(old(ledger), ledger) && Latched(old(ledger), ledger)
      ensures At(old(ledger), k, k, b, f) ==> ok
    {
      hide WithBit, At;
      if At(ledger, k, k, b, f) { AtBegun(ledger, k, b, f, true); }
      hide CallsAfter, BuffersAfter;
      var reserved := ReservedCategory(ledger.counters, CategoryOf(k));
      if reserved.None? {
        Reject("call_budget_exceeded");
        return false;
      }
      ReservedIsSane(ledger, k);
      ledger := ledger.(counters := reserved.value);
      ok := ReserveAbi(CategoryOf(k).Index());
      if !ok { return; }
      BegunIsSane(ledger, CategoryOf(k).Index(), k);
      ledger := ledger.(counters := ledger.counters.(attemptedSteps := WithBit(ledger.counters.attemptedSteps, k),
                                                     attempted := Inc(ledger.counters.attempted)));
    }

    /** The call of the k-th step was made and answered, and what is wrong with that is on
        record. */
    ghost predicate Went(before: seq<CallMade>, troubled: bool, k: nat, exchange: Exchange, status: int)
      requires k < 16
      reads this`calls, this`answers, this`native
    {
      && calls == before + [Answered(exchange, status)] && (troubled ==> Trouble())
      && (status != CategoryOf(k).Expected() ==> Trouble())
      && (native.Some? && native.value.stopped ==> Trouble())
    }

    /** Makes the k-th step's call: at most one attempt, and none once the run is stopped. */
    method Start(k: nat, ghost b: nat, ghost f: nat, ghost exchange: Exchange) returns (go: bool, status: int)
      requires Sane(ledger) && k < 16
      modifies this
      ensures go ==> Went(old(calls), old(Trouble()), k, exchange, status)
      ensures old(Trouble()) ==> Trouble()
      ensures !go && At(old(ledger), k, k, b, f) && !old(ledger).stopped ==> Trouble()
      ensures go ==> !ledger.stopped
      ensures Sane(ledger) && SameBuffers(old(ledger), ledger) && Latched(old(ledger), ledger)
          && NativeLatched(old(native))
      ensures old(ledger).stopped ==> !go && ledger == old(ledger)
      ensures At(old(ledger), k, k, b, f) ==> ledger.counters.budgetRejections == 0
      ensures go ==> ledger.abiCalls[CategoryOf(k).Index()].accepted < ledger.abiCalls[CategoryOf(k).Index()].returned
      ensures go && At(old(ledger), k, k, b, f) ==> At(ledger, k + 1, k, b, f)
      ensures go && NothingUnknown(old(ledger), old(native)) ==> NothingUnknown(ledger, native)
    {
      hide StepName, At, Begun, Sane, SaneBut, SameBuffers, CategoryOf, ReservedCategory, AllSettled, Troubled;
      SaneSays(ledger);
      if At(ledger, k, k, b, f) { AtSays(ledger, k, k, b, f); }
      status := -1;
      if ledger.stopped { return false, status; }
      go := CheckClock(StepName(k));
      TickedKeeps(old(ledger), ledger, k, k, b, f);
      if !go { return; }
      ghost var start := ledger;
      go := Reserve(k, b, f);
      SameTwice(old(ledger), start, ledger);
      if !go { return; }
      go, status := Call(k, b, f, start, exchange);
      SameTwice(old(ledger), start, ledger);
    }

    method Call(k: nat, ghost b: nat, ghost f: nat, ghost start: Ledger, ghost exchange: Exchange)
      returns (go: bool, status: int)
      requires k < 16 && |start.abiCalls| == 7 && ReservedCategory(start.counters, CategoryOf(k)).Some?
          && ledger == Begun(start, k)
      requires SaneBut(ledger, CategoryOf(k).Index())
      modifies this
      ensures Sane(ledger) && SameBuffers(start, ledger) && Latched(start, ledger) && NativeLatched(old(native))
      ensures At(start, k, k, b, f) ==> ledger.counters.budgetRejections == 0
      ensures go ==> ledger.abiCalls[CategoryOf(k).Index()].accepted < ledger.abiCalls[CategoryOf(k).Index()].returned
      ensures go && At(start, k, k, b, f) ==> At(ledger, k + 1, k, b, f)
      ensures go && NothingUnknown(start, old(native)) ==> NothingUnknown(ledger, native)
      ensures go ==> Went(old(calls), old(Trouble()), k, exchange, status)
      ensures old(Trouble()) ==> Trouble()
      ensures !go && !start.stopped ==> Trouble()
      ensures go && !start.stopped ==> !ledger.stopped
    {
      if At(start, k, k, b, f) {
        AtSays(start, k, k, b, f);
        AtBegun(start, k, b, f, true);
        AtBegun(start, k, b, f, false);
      }
      hide StepName, At, Begun, Back, Sane, SameBuffers, Latched, SaneBut, CategoryOf, AllSettled, Ideal,
          ReservedCategory, CallsAfter, Troubled;
      go, status := Make(k, start, exchange);
      if !go { return; }
      ghost var back := ledger;
      go := CheckClock(StepName(k));
      TickedKeeps(back, ledger, k + 1, k, b, f);
      SameTwice(start, back, ledger);
      if !go { Linger(k, start); }
    }

    /** The call itself, put to the library. */
    method Ask(k: nat, ghost exchange: Exchange) returns (threw: bool, status: int)
      requires k < 16
      modifies this`native, this`answers, this`calls
      ensures NativeLatched(old(native)) && (old(Trouble()) ==> Trouble())
      ensures if threw then Trouble() else Went(old(calls), old(Trouble()), k, exchange, status)
    {
      hide Troubled;
      NativeMoves();
      threw, status := *, *;
      calls := calls + [if threw then Threw(exchange) else Answered(exchange, status)];
      ExpectedIs(k);
      Note(CallEnded(k, threw, status));
    }

    /** The call, and what became of it. */
    method Make(k: nat, ghost start: Ledger, ghost exchange: Exchange) returns (ok: bool, status: int)
      requires k < 16 && |start.abiCalls| == 7 && ReservedCategory(start.counters, CategoryOf(k)).Some?
          && ledger == Begun(start, k)
      requires SaneBut(ledger, CategoryOf(k).Index())
      modifies this
      ensures Sane(ledger) && |ledger.abiCalls| == 7 && SameBuffers(start, ledger) && Latched(start, ledger)
          && NativeLatched(old(native))
      ensures ledger.counters.budgetRejections == start.counters.budgetRejections
      ensures ok ==> ledger == Back(Begun(start, k), k, native.None? || !native.value.unknown)
                     && ledger.abiCalls[CategoryOf(k).Index()].accepted
                        < ledger.abiCalls[CategoryOf(k).Index()].returned
                     && (NothingUnknown(start, old(native)) ==> NothingUnknown(ledger, native))
      ensures ok ==> Went(old(calls), old(Trouble()), k, exchange, status) && ledger.stopped == start.stopped
      ensures (old(Trouble()) ==> Trouble()) && (!ok ==> Trouble())
    {
      hide Troubled, Went, StepName, Begun, Back, Thrown, SameBuffers, Latched, SaneBut, CategoryOf, AllSettled,
          ReservedCategory;
      ThrownSays(start, k);
      BackSays(start, k, true);
      BackSays(start, k, false);
      var threw: bool;
      threw, status := Ask(k, exchange);
      ok := !threw;
      if threw {
        ledger := Thrown(ledger, CategoryOf(k).Index());
        ghost var thrown := ledger;
        StoppedSays(thrown, StepName(k), -1, "SETTLEMENT_UNKNOWN");
        Stop(StepName(k), -1, "SETTLEMENT_UNKNOWN");
        SameTwice(start, thrown, ledger);
        Linger(k, start);
        return;
      }
      ledger := Back(ledger, k, native.None? || !native.value.unknown);
    }

    /** A last measurement after the run was stopped. */
    method Linger(k: nat, ghost start: Ledger)
      requires k < 16 && Sane(ledger) && SameBuffers(start, ledger) && Latched(start, ledger)
      modifies this`ledger, this`answers
      ensures Sane(ledger) && |ledger.abiCalls| == 7 && SameBuffers(start, ledger) && Latched(start, ledger)
      ensures ledger.counters.budgetRejections == old(ledger).counters.budgetRejections
      ensures old(Trouble()) ==> Trouble()
    {
      SaneSays(ledger);
      hide Troubled, StepName, Sane, Core, SameBuffers;
      var seen := Observe(StepName(k));
      MeasuredKeeps(old(ledger), ledger, 0, 0, 0, 0);
      SameTwice(start, old(ledger), ledger);
    }

    /** Judges what came back: the expected status and a good shape are accepted, anything
        else stops the run; then one measurement. */
    method Finish(k: nat, status: int, shape: bool, ghost b: nat, ghost f: nat) returns (ok: bool)
      requires Sane(ledger) && k < 16
      requires ledger.abiCalls[CategoryOf(k).Index()].accepted < ledger.abiCalls[CategoryOf(k).Index()].returned
      modifies this`ledger, this`answers
      ensures old(Trouble()) ==> Trouble()
      ensures (&& !ok && sampled && !old(ledger).stopped && status == CategoryOf(k).Expected()
               && (native.None? || !native.value.stopped)) ==> Trouble()
      ensures Sane(ledger) && SameBuffers(old(ledger), ledger) && Latched(old(ledger), ledger)
      ensures At(old(ledger), k + 1, k, b, f) ==> ledger.counters.budgetRejections == 0
      ensures ok ==>
          !ledger.stopped && status == CategoryOf(k).Expected() && shape
          && (native.Some? ==> !native.value.stopped)
      ensures ok && At(old(ledger), k + 1, k, b, f) ==> At(ledger, k + 1, k + 1, b, f)
      ensures ok && NothingUnknown(old(ledger), native) ==> NothingUnknown(ledger, native)
    {
      hide StepName, At, Sane, Core, Completed, Approved, SameBuffers, AllSettled, Troubled;
      Note(ShapeSeen(shape));
      if At(ledger, k + 1, k, b, f) {
        AtSays(ledger, k + 1, k, b, f);
        AtApproved(ledger, k, b, f);
      }
      JudgedSays(ledger, k, status);
      SaneSays(ledger);
      ghost var was := ledger;
      var good := Judge(k, status, shape);
      ghost var judged := ledger;
      ok := Observe(StepName(k));
      MeasuredKeeps(judged, ledger, k + 1, k + 1, b, f);
      SameTwice(was, judged, ledger);
    }

    method Judge(k: nat, status: int, shape: bool) returns (ok: bool)
      requires k < 16 && Sane(ledger)
      requires ledger.abiCalls[CategoryOf(k).Index()].accepted < ledger.abiCalls[CategoryOf(k).Index()].returned
      modifies this`ledger
      ensures Sane(ledger) && |ledger.abiCalls| == 7 && SameBuffers(old(ledger), ledger) && Latched(old(ledger), ledger)
      ensures ledger.counters.budgetRejections == old(ledger).counters.budgetRejections
      ensures AllSettled(old(ledger)) ==> AllSettled(ledger)
      ensures !ok ==> ledger.stopped
      ensures ok ==> ledger.stopped == old(ledger).stopped
      ensures status == CategoryOf(k).Expected() && shape && (native.None? || !native.value.stopped) ==> ok
      ensures ok ==> status == CategoryOf(k).Expected() && shape && (native.Some? ==> !native.value.stopped)
                     && ledger == Approved(Completed(old(ledger), k, status), k)
    {
      hide StepName, Sane, Approved, SameBuffers, AllSettled, Completed;
      JudgedSays(ledger, k, status);
      var category := CategoryOf(k);
      ledger := Completed(ledger, k, status);
      ghost var counted := ledger;
      ok := false;
      if native.Some? && native.value.stopped {
        var first: string := native.value.firstFailure;
        var short: Int32 := *;
        var code := if native.value.firstFailureUnknown then "SETTLEMENT_UNKNOWN" else "ADMISSION_BLOCKED";
        StoppedSays(counted, first, short, code);
        Stop(first, short, code);
        SameTwice(old(ledger), counted, ledger);
        Unsettle(ledger, native.value.unknown);
        ledger := ledger.(settlementUnknown := ledger.settlementUnknown || native.value.unknown);
      } else if status == category.Expected() && shape {
        ledger := Approved(ledger, k);
        ok := true;
      } else {
        var mismatch := (category.Negative() && status == STATUS_OK)
            || (!category.Negative() && status == VERIFICATION_REJECTED);
        var short: Int32 := *;
        var code := if mismatch then "SECURITY_REJECT_MISMATCH" else "ADMISSION_BLOCKED";
        StoppedSays(counted, StepName(k), short, code);
        Stop(StepName(k), short, code);
        SameTwice(old(ledger), counted, ledger);
      }
    }
  }
}

/** The supervisor of one worker: launch, the deadline that runs from the launch attempt,
    samples within the approved limits, and a verdict on what was settled. Its first
    failure and its final states are latched. */
module Supervisors {
  import opened WireBytes
  import opened Settlements
  import opened Channels
  import opened PermissionLog

  datatype Phase = NotStarted | GrantUsed | StartAttempted | Running | Settling | Complete
                 | StopRequested | DeadlineExceeded | SettlementUnknown | Blocked
  {
    predicate Terminal() { this in {Complete, SettlementUnknown, Blocked} }
  }

  datatype Reason = NoReason | OnAdmission | OnLaunch | OnDeadline | OnMeasurement | OnBudget | OnWorker | OnSettlement
  datatype Verdict = NotRun | Pass | Fail | Unknown | Inconclusive
  datatype WorkerState = WorkerRunning | WorkerFailed | WorkerUnknown

  /** How a launch ended, from what was observed of it. */
  function LaunchState(w: WorkerStart): WorkerState {
    if !w.created then if w.creationUnknown then WorkerUnknown else WorkerFailed
    else if w.Running() then WorkerRunning else WorkerUnknown
  }

  /** The first failure, once the time was looked at: an earlier one stays, a clock that
      goes back is a failed measurement, and the deadline counts from the launch. */
  function CauseAt(first: Reason, last: U64, now: U64, launchedAt: U64, allowed: nat): (cause: Reason)
    ensures first != NoReason ==> cause == first
    ensures cause == NoReason <==> first == NoReason && last <= now && now - launchedAt < allowed
    ensures first == NoReason ==> (cause == OnMeasurement <==> now < last)
  {
    if first != NoReason then first
    else if now < last then OnMeasurement
    else if now - launchedAt >= allowed then OnDeadline
    else NoReason
  }

  // ----- what a settlement must say

  predicate Balanced(c: CallCounts) {
    c.unknown == 0 && c.returned == c.attempted && c.settled == c.attempted
  }

  /** Something is not accounted for. */
  predicate Unresolved(exit: bool, l: Ledger, n: Observation)
    requires l.Valid() && n.Valid()
  {
    || !exit || n.unknown || n.stillOwned != 0 || n.quarantined != 0 || n.acquired != n.released || l.settlementUnknown
    || (exists i | 0 <= i < 14 :: !Balanced(n.calls[i]))
    || (exists i | 0 <= i < 7 :: !Balanced(l.abiCalls[i]))
    || l.counters.buffersLive != 0 || l.counters.releasesUnknown != 0
  }

  const NATIVE_LIMITS := [12, 3, 3, 3, 9, 3, 6, 12, 12, 3, 3, 20, 20, 3]

  predicate NativeComplete(n: Observation)
    requires n.Valid()
  {
    && !n.stopped && !n.unknown && n.stillOwned == 0 && n.quarantined == 0 && n.acquired == 47 == n.released
    && forall i | 0 <= i < 14 ::
         && n.calls[i].attempted == NATIVE_LIMITS[i] == n.calls[i].returned
         && n.calls[i].accepted == n.calls[i].settled == NATIVE_LIMITS[i] && n.calls[i].unknown == 0
  }

  /** The whole run, and nothing but the run, happened. */
  predicate Exact(t: Target, l: Ledger, n: Observation)
    requires l.Valid() && n.Valid()
  {
    var c := l.counters;
    && c.duplicateReleaseAttempts == 0 && c.forbiddenSymbolAttempts == 0 && c.observationFailures == 0
    && c.samples == 18 && !l.stopped
    && (if t.AdmissionOnly() then
          && c.abiAttemptedTotal == 0 && c.attempted == c.returned == c.completed == c.accepted == c.successful == 0
          && c.buffersAllocated == 0 && c.releasesAttempted == c.releasesSucceeded == 0
          && n.acquired == n.released == n.stillOwned == n.quarantined == 0 && !n.stopped && !n.unknown
          && forall i | 0 <= i < 14 :: n.calls[i].attempted == 0 && n.calls[i].accepted == 0
        else
          && c.abiAttemptedTotal == 106 && c.attempted == c.returned == c.completed == c.accepted == 16
          && c.successful == 12
          && c.buffersAllocated == 45 && c.releasesAttempted == c.releasesSucceeded == 45 && NativeComplete(n))
    && |t.abiLimits| == 7
    && forall i | 0 <= i < 7 ::
    l.abiCalls[i].attempted == t.abiLimits[i]
    && l.abiCalls[i].accepted == l.abiCalls[i].attempted
  }

  class Supervisor {
    var phase: Phase
    var firstFailure: Reason
    var lastMs: U64
    var started: bool
    var launchedAt: U64
    var target: Option<Target>
    var samples: seq<ResourceSample>
    var exitObserved: bool
    var verdict: Verdict
    /** What the verdict was given on. */
    ghost var settled: Option<Record>

    constructor ()
      ensures Valid() && phase == NotStarted && !started && verdict == NotRun
    {
      phase, firstFailure, lastMs, started, launchedAt := NotStarted, NoReason, 0, false, 0;
      target, samples, exitObserved, verdict, settled := None, [], false, NotRun, None;
    }

    ghost predicate Valid()
      reads this
    {
      && (started ==> launchedAt <= lastMs && target.Some?)
      && (phase != NotStarted && phase != Blocked && phase != StopRequested ==> target.Some?)
      && (phase in {NotStarted, GrantUsed} ==> !started)
      && (phase in {StartAttempted, Running, Settling, Complete} ==> started)
      && (phase in {NotStarted, GrantUsed, StartAttempted, Running} ==> firstFailure == NoReason)
      && |samples| <= 18
      && (verdict == Pass ==> Passed())
    }

    /** What a PASS stands for. */
    ghost predicate Passed()
      reads this
    {
      && phase == Complete && firstFailure == NoReason && |samples| == 18 && exitObserved && target.Some?
      && settled.Some? && settled.value.ledger.Valid() && settled.value.native.Valid()
      && !Unresolved(true, settled.value.ledger, settled.value.native)
      && Exact(target.value, settled.value.ledger, settled.value.native)
    }

    /** The supervisor settled, with this first failure before it looked at the record: the
        phase, the failure and the verdict that follow. */
    ghost predicate Settled(cause: Reason)
      reads this
    {
      && target.Some? && settled.Some? && settled.value.ledger.Valid() && settled.value.native.Valid()
      && var l, n := settled.value.ledger, settled.value.native;
         var resolved := !Unresolved(exitObserved, l, n);
         && phase == (if resolved then Complete else SettlementUnknown)
         && firstFailure == (if cause == NoReason && !resolved then OnSettlement else cause)
         && (verdict == Unknown <==> !resolved)
         && (verdict == Inconclusive <==> resolved && cause == OnMeasurement)
         && (verdict == Pass <==> resolved && cause == NoReason && |samples| == 18 && Exact(target.value, l, n))
         && (verdict == Fail <==> && resolved && cause != OnMeasurement
                                  && (cause != NoReason || |samples| != 18 || !Exact(target.value, l, n)))
    }

    /** A record that calls itself unknown settles nothing. */
    lemma NotKnown(cause: Reason)
      requires Settled(cause) && settled.value.ledger.settlementUnknown
      ensures verdict == Unknown
    {
    }

    /** The first failure stays the cause; a final phase stays final. */
    method Halt(reason: Reason, next: Phase)
      requires Valid() && reason != NoReason
      requires next in {StopRequested, DeadlineExceeded, SettlementUnknown, Blocked}
      requires next in {DeadlineExceeded, SettlementUnknown} ==> started
      modifies this`phase, this`firstFailure
      ensures Valid() && (old(phase).Terminal() ==> phase == old(phase) && firstFailure == old(firstFailure))
      ensures !old(phase).Terminal() ==> phase == next && firstFailure == if old(firstFailure) == NoReason then reason
          else old(firstFailure)
    {
      if phase.Terminal() { return; }
      if firstFailure == NoReason { firstFailure := reason; }
      phase := next;
    }

    method Time(now: U64) returns (ok: bool)
      requires Valid()
      modifies this`phase, this`firstFailure, this`lastMs
      ensures Valid() && ok == (old(lastMs) <= now)
      ensures if ok then lastMs == now && phase == old(phase) && firstFailure == old(firstFailure)
              else lastMs == old(lastMs) && (old(phase).Terminal() ==> phase == old(phase))
                   && (!old(phase).Terminal() ==>
                         phase == StopRequested
                         && firstFailure == if old(firstFailure) == NoReason then OnMeasurement else old(firstFailure))
    {
      if now < lastMs {
        Halt(OnMeasurement, StopRequested);
        return false;
      }
      lastMs := now;
      ok := true;
    }

    /** Blocks unless the grant was consumed for this target. */
    method Admit(consumed: bool, observed: Target, mono: U64)
      requires Valid() && phase == NotStarted
      modifies this
      ensures Valid() && !started && verdict == old(verdict)
      ensures phase == if consumed then GrantUsed else Blocked
      ensures consumed ==> target == Some(observed)
    {
      if !consumed {
        Halt(OnAdmission, Blocked);
        return;
      }
      target, lastMs, phase := Some(observed), mono, GrantUsed;
    }

    /** From here the deadline runs. */
    method BeginLaunch(utc: U64, mono: U64) returns (ok: bool)
      requires Valid()
      modifies this
      ensures Valid() && verdict == old(verdict) && target == old(target)
      ensures ok ==> old(phase) == GrantUsed && phase == StartAttempted && started && launchedAt == mono
      ensures !ok && old(phase) == GrantUsed ==> phase in {StopRequested, Blocked}
      ensures old(phase) != GrantUsed ==>
          !ok && phase == old(phase) && started == old(started)
          && launchedAt == old(launchedAt)
    {
      if phase != GrantUsed { return false; }
      ok := Time(mono);
      if !ok { return; }
      launchedAt, phase, started := mono, StartAttempted, true;
      var t := target.value;
      if utc < t.windowStart || utc >= t.windowEnd || t.windowEnd - utc < t.maxExecution {
        Halt(OnLaunch, Blocked);
        return false;
      }
    }

    method ConfirmLaunch(result: WorkerState) returns (ok: bool)
      requires Valid()
      modifies this`phase, this`firstFailure, this`verdict
      ensures Valid()
      ensures ok <==> old(phase) == StartAttempted && result == WorkerRunning
      ensures ok ==> phase == Running
      ensures !ok && old(phase) == StartAttempted ==> phase == if result == WorkerUnknown then SettlementUnknown
          else Blocked
      ensures old(phase) != StartAttempted ==> phase == old(phase)
    {
      if phase != StartAttempted { return false; }
      if result == WorkerUnknown {
        Halt(OnLaunch, SettlementUnknown);
        verdict := Unknown;
        return false;
      }
      if result != WorkerRunning {
        Halt(OnLaunch, Blocked);
        return false;
      }
      phase := Running;
      ok := true;
    }

    /** Healthy, monotone and before the deadline; otherwise new work is closed. */
    method Poll(now: U64, healthy: bool) returns (ok: bool)
      requires Valid()
      modifies this`phase, this`firstFailure, this`lastMs
      ensures Valid() && (old(phase).Terminal() || old(phase) == NotStarted ==> !ok && phase == old(phase))
      ensures ok ==> healthy && phase == old(phase) && firstFailure == old(firstFailure) == NoReason && lastMs == now
      ensures ok && started ==> launchedAt <= now && now - launchedAt < target.value.maxExecution
      ensures phase == old(phase) || phase in {StopRequested, DeadlineExceeded}
      ensures started && !old(phase).Terminal() && healthy ==>
          firstFailure == CauseAt(old(firstFailure), old(lastMs), now, launchedAt, target.value.maxExecution)
    {
      if phase.Terminal() || phase == NotStarted { return false; }
      ok := healthy;
      if ok { ok := Time(now); }
      if !ok {
        Halt(OnMeasurement, StopRequested);
        return;
      }
      if started && now - launchedAt >= target.value.maxExecution {
        Halt(OnDeadline, DeadlineExceeded);
        return false;
      }
      ok := firstFailure == NoReason;
    }

    method Sample(s: ResourceSample) returns (ok: bool)
      requires Valid()
      modifies this`phase, this`firstFailure, this`lastMs, this`samples
      ensures Valid()
      ensures ok ==> && samples == old(samples) + [s] && phase == old(phase) && target.Some?
                     && s.working <= target.value.working && s.commit <= target.value.commit
                     && s.handles <= target.value.handles
      ensures !ok ==> samples == old(samples) || samples == old(samples) + [s]
      ensures phase == old(phase) || phase in {StopRequested, DeadlineExceeded}
    {
      if phase != Running && phase != Settling { return false; }
      ok := Poll(s.observedAt, true);
      if !ok { return; }
      var n, t := |samples|, target.value;
      var expected := Completed(t.AdmissionOnly(), n);
      if n >= 18 || s.working == 0 || s.commit == 0 || s.handles == 0 || s.completed != expected
         || (n > 0 && (s.working < samples[n - 1].working || s.commit < samples[n - 1].commit)) {
        Halt(OnMeasurement, StopRequested);
        return false;
      }
      samples := samples + [s];
      if s.working > t.working || s.commit > t.commit || s.handles > t.handles {
        Halt(OnBudget, StopRequested);
        return false;
      }
    }

    method WorkerFailed()
      requires Valid()
      modifies this`phase, this`firstFailure
      ensures Valid() && if old(phase).Terminal() then phase == old(phase) else phase == StopRequested
      ensures firstFailure == if old(firstFailure) == NoReason && !old(phase).Terminal() then OnWorker
          else old(firstFailure)
    {
      Halt(OnWorker, StopRequested);
    }

    method Refuse(reason: Reason)
      requires Valid() && reason in {OnAdmission, OnLaunch}
      modifies this`phase, this`firstFailure
      ensures Valid() && phase.Terminal() && (!old(phase).Terminal() ==> phase == Blocked)
    {
      Halt(reason, Blocked);
    }

    method ObserveExit(now: U64)
      requires Valid()
      modifies this`phase, this`firstFailure, this`lastMs, this`exitObserved
      ensures Valid() && (old(phase).Terminal() ==> phase == old(phase))
      ensures phase == old(phase) || phase in {StopRequested, Settling}
      ensures !old(phase).Terminal() && started && !old(exitObserved) ==>
          if old(lastMs) <= now then exitObserved && lastMs == now && firstFailure == old(firstFailure)
          else && !exitObserved && lastMs == old(lastMs)
               && firstFailure == if old(firstFailure) == NoReason then OnMeasurement else old(firstFailure)
      ensures old(phase).Terminal() || !started || old(exitObserved) ==>
          exitObserved == old(exitObserved) && lastMs == old(lastMs) && firstFailure == old(firstFailure)
    {
      if phase.Terminal() || !started || exitObserved { return; }
      var ok := Time(now);
      if !ok { return; }
      exitObserved := true;
      phase := Settling;
    }

    /** The verdict: unknown exactly if something is unaccounted for; otherwise inconclusive
        after a failed measurement, PASS for the exact run without a failure, and else FAIL. */
    method Settle(now: U64, exit: bool, l: Ledger, n: Observation)
      requires Valid() && l.Valid() && n.Valid()
      modifies this
      ensures Valid() && started == old(started) && target == old(target) && launchedAt == old(launchedAt)
      ensures old(phase).Terminal() ==> phase == old(phase) && verdict == old(verdict)
      ensures samples == old(samples)
      ensures !started ==> phase == old(phase) && verdict == old(verdict)
      ensures !old(phase).Terminal() && started ==>
          && phase.Terminal() && settled == Some(Record(l, n)) && exitObserved == (old(exitObserved) || exit)
          && Settled(CauseAt(old(firstFailure), old(lastMs), now, launchedAt, target.value.maxExecution))
    {
      hide Unresolved, Exact, Settled, Passed, CauseAt;
      if !started || phase.Terminal() { return; }
      NoPassYet();
      var polled := Poll(now, true);
      if exit { exitObserved := true; }
      settled := Some(Record(l, n));
      Conclude(l, n);
    }

    lemma NoPassYet()
      requires Valid() && !phase.Terminal()
      ensures verdict != Pass
    {
    }

    method Conclude(l: Ledger, n: Observation)
      requires Valid() && started && !phase.Terminal() && settled == Some(Record(l, n)) && l.Valid() && n.Valid()
      modifies this`phase, this`firstFailure, this`verdict
      ensures Valid() && Settled(old(firstFailure)) && phase.Terminal()
    {
      hide Unresolved, Exact;
      if Unresolved(exitObserved, l, n) {
        Halt(OnSettlement, SettlementUnknown);
        verdict := Unknown;
        return;
      }
      Pronounce(l, n);
    }

    /** The verdict over a resolved settlement. */
    method Pronounce(l: Ledger, n: Observation)
      requires Valid() && started && target.Some? && !phase.Terminal() && settled == Some(Record(l, n)) && l.Valid()
          && n.Valid()
      requires !Unresolved(exitObserved, l, n)
      modifies this`phase, this`verdict
      ensures Valid() && Settled(firstFailure)
    {
      hide Exact;
      phase := Complete;
      if firstFailure == OnMeasurement {
        verdict := Inconclusive;
      } else if firstFailure != NoReason || !Exact(target.value, l, n) || |samples| != 18 {
        verdict := Fail;
      } else {
        verdict := Pass;
      }
    }
  }
}

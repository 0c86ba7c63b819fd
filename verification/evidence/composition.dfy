/** The composition: it wraps the controller's grant store and platform so that every
    effect is preceded by a preserved record, and stops for good when one is lost. The
    controller inside may call the wrappers in any order. */
module Compositions {
  import opened WireBytes
  import opened Settlements
  import opened PermissionLog
  import opened EvidenceRecords
  import opened EvidenceLog

  /** What was approved and frozen; sound says that its own checks pass. */
  datatype Approved = Approved(sound: bool, batch: string, target: Digest, manifest: Digest, reviewer: string,
                               verifier: string,
                               review: string, verification: string, maxPumps: U32)

  const NOTHING_MEASURED: seq<CallCounts> := []
  const NO_PEAK := ResourceSample(0, 0, 0, 0, 0)

  function FirstRecord(): (r: EvidenceRecord) {
    EvidenceRecord(ControllerStarted, NoFailure, "", seq(32, i => 0), seq(32, i => 0), None, "", "", "", "", None, 0,
        0, 0, 0, 0, 0,
           seq(7, i => NO_CALLS), seq(14, i => NO_CALLS), seq(18, i => NO_PEAK), 0, NO_PEAK, NO_FLAGS, 0, NotRunYet,
               NotRunYet)
  }

  /** The verdict in the record that was handed over last. */
  function LastSecurity(log: seq<Mark>): Option<EvidenceRecords.Verdict> {
    if log != [] && log[|log| - 1].Kept? then Some(log[|log| - 1].record.security) else None
  }

  /** Everything outside: the store, the custodian, the identity checks. Each effect is
      logged; an exception is one of the answers. */
  class Outside {
    const h: RecordHash
    ghost var log: seq<Mark>

    constructor (h: RecordHash)
      ensures this.h == h && log == []
    {
      this.h, log := h, [];
    }

    /** A question that changes nothing that matters here. */
    method Ask() returns (threw: bool, yes: bool)
    {
      threw, yes := *, *;
      yes := yes && !threw;
    }

    method Do(e: Effect) returns (threw: bool, ok: bool)
      requires Disciplined(log, h) && (Guard(e).Some? ==> Marked(log, Guard(e).value))
      requires e == CreateWorker ==> Did(CreateWorker) !in log
      modifies this
      ensures Disciplined(log, h) && log == old(log) + [Did(e)] && (threw ==> !ok)
    {
      EffectDone(log, e, h);
      threw, ok := *, *;
      ok := ok && !threw;
      log := log + [Did(e)];
    }
  }

  /** Where records go: straight to the medium, or to any sink at all. */
  class EvidenceSink {
    const medium: PersistentEvidence
    const direct: bool

    constructor (medium: PersistentEvidence, direct: bool)
      ensures this.medium == medium && this.direct == direct
    {
      this.medium, this.direct := medium, direct;
    }

    method Preserve(r: EvidenceRecord) returns (threw: bool, ack: Ack)
      requires medium.Valid()
      modifies medium
      ensures medium.Valid() && (threw ==> ack == NO_ACK)
      ensures direct && old(medium.failed) ==> ack == NO_ACK && medium.refusals == old(medium.refusals)
      ensures direct && !old(medium.failed) && medium.Configured() && old(medium.Continues(r)) ==>
          medium.refusals == old(medium.refusals)
      ensures direct && ack.ok ==> !medium.failed && medium.kept == old(medium.kept) + [r]
      ensures !direct ==> medium.refusals == old(medium.refusals)
    {
      if direct {
        threw, ack := medium.Preserve(r);
      } else {
        threw, ack := *, *;
        if threw { ack := NO_ACK; }
      }
    }
  }

  class Composition {
    const frozen: Approved
    const outside: Outside
    const sink: EvidenceSink
    var last: EvidenceRecord
    var firstFailure: Failure
    var terminal: bool
    var preserved: bool
    var writes: nat
    var pumps: nat
    var attempted: bool
    var offlineReady: bool
    var createAttempted: bool
    var pinsCloseAttempted: bool
    var lost: bool
    var sinkFailed: bool
    var exitObserved: bool
    var measurements: nat
    var clocks: nat
    var observations: nat
    var nexts: nat
    var sends: nat
    var inspections: nat

    constructor (frozen: Approved, outside: Outside, sink: EvidenceSink)
      requires outside.log == [] && outside.h == sink.medium.h && (frozen.sound ==> 0 < frozen.maxPumps <= 4096)
      requires sink.medium.Valid() && sink.medium.kept == [] && sink.medium.refusals == 0 && !sink.medium.failed
      requires sink.direct ==> sink.medium.batch == frozen.batch && sink.medium.target == frozen.target
      ensures Valid() && this.frozen == frozen && this.outside == outside && this.sink == sink && !terminal
          && !attempted
      ensures writes == 0 && pumps == 0 && firstFailure == NoFailure
    {
      this.frozen, this.outside, this.sink := frozen, outside, sink;
      last, firstFailure, terminal, preserved := FirstRecord(), NoFailure, false, false;
      writes, pumps, attempted, offlineReady, createAttempted, pinsCloseAttempted := 0, 0, false, false, false, false;
      lost, sinkFailed, exitObserved, measurements, clocks, observations := false, false, false, 0, 0, 0;
      nexts, sends, inspections := 0, 0, 0;
    }

    /** The records so far are in the medium, and its checks never refused one. */
    ghost predicate Accepted()
      reads `sinkFailed, outside, sink, sink.medium
    {
      && (!sinkFailed ==> !sink.medium.failed && sink.medium.kept == KeptRecords(outside.log))
      && (sink.medium.Configured() && sink.medium.most == frozen.maxPumps + 32 ==> sink.medium.refusals == 0)
    }

    ghost predicate Valid()
      reads `last, `writes, `sinkFailed, `createAttempted, outside, sink, sink.medium
    {
      && outside.h == sink.medium.h && sink.medium.Valid() && Disciplined(outside.log, outside.h)
      && (sink.direct ==> sink.medium.batch == frozen.batch && sink.medium.target == frozen.target && Accepted())
      && (!sinkFailed ==> Ready(outside.log, writes, last.previous, outside.h))
      && (!createAttempted ==> Did(CreateWorker) !in outside.log)
      && (if frozen.sound then 0 < frozen.maxPumps <= 4096 && writes <= frozen.maxPumps + 33
          else writes == 0 || sinkFailed)
      && (!sinkFailed ==> writes <= Limit())
    }

    /** How many records there may be; the sum is one of 32-bit words. */
    function Limit(): U32 {
      (frozen.maxPumps + 32) % 0x1_0000_0000
    }

    ghost function Repr(): set<object>
      reads this
    {
      {this, outside, sink.medium}
    }

    method Fail(f: Failure)
      requires Valid()
      modifies this`firstFailure, this`last, this`offlineReady
      ensures Valid()
      ensures firstFailure == if old(firstFailure) == NoFailure then f else old(firstFailure)
      ensures last == old(last).(firstFailure := firstFailure)
    {
      if firstFailure == NoFailure { firstFailure := f; }
      last, offlineReady := last.(firstFailure := firstFailure), false;
    }

    /** Fills in the record to come; it still names the one before. */
    method Restate(r: EvidenceRecord)
      requires Valid() && r.previous == last.previous
      modifies this`last
      ensures Valid() && last == r
    {
      last := r;
    }

    /** One record, handed over once. Whatever is not a full acknowledgement of exactly
        this record closes the evidence for good. */
    method Save(s: Stage) returns (ok: bool)
      requires Valid()
      modifies this`last, this`firstFailure, this`offlineReady, this`writes, this`sinkFailed, this`preserved, outside,
          sink.medium
      ensures Valid() && (old(sinkFailed) ==> sinkFailed)
          && (firstFailure == NoFailure ==> old(firstFailure) == NoFailure)
      ensures ok ==>
          Marked(outside.log, s) && !sinkFailed && preserved && firstFailure == old(firstFailure) && !terminal
      ensures (Did(CreateWorker) in outside.log) == (Did(CreateWorker) in old(outside.log))
      ensures ok ==> last.security == old(last).security && LastSecurity(outside.log) == Some(last.security)
      ensures !ok ==> terminal || sinkFailed
      ensures terminal ==> unchanged(this) && unchanged(outside) && unchanged(sink.medium)
      ensures last.flags == old(last).flags
      ensures !ok && !old(sinkFailed) && !terminal ==> firstFailure != NoFailure
    {
      hide Losing, Disciplined, KeptRecords, LastHash, Linked, NoneLost, SafeId, HexDigest, Ready, Guard, Marked,
          LastSecurity;
      ok := false;
      if terminal || sinkFailed { return; }
      if writes + 1 > Limit() {
        OneTooMany();
        writes := writes + 1;
        Lose(BudgetFailure);
        return;
      }
      ok := Keep(s);
      if !ok {
        preserved := false;
        Lose(EvidenceFailure);
      }
    }

    /** What is left of the invariant when a record is about to count as lost. */
    ghost predicate Losing(count: nat)
      reads `createAttempted, outside, sink, sink.medium
    {
      && outside.h == sink.medium.h && sink.medium.Valid() && Disciplined(outside.log, outside.h)
      && (sink.direct ==> sink.medium.batch == frozen.batch && sink.medium.target == frozen.target
                          && (sink.medium.Configured() && sink.medium.most == frozen.maxPumps + 32 ==>
                              sink.medium.refusals == 0))
      && (!createAttempted ==> Did(CreateWorker) !in outside.log)
      && (frozen.sound ==> 0 < frozen.maxPumps <= 4096 && count <= frozen.maxPumps + 33)
    }

    lemma OneTooMany()
      requires Valid() && !sinkFailed
      ensures Losing(writes + 1)
    {
      hide Disciplined, KeptRecords, LastHash, Linked, NoneLost, SafeId, HexDigest, Ready, Guard;
    }

    /** From here on nothing is recorded any more. */
    method Lose(f: Failure)
      requires Losing(writes)
      modifies this`last, this`firstFailure, this`offlineReady, this`sinkFailed
      ensures Valid() && sinkFailed
      ensures firstFailure == if old(firstFailure) == NoFailure then f else old(firstFailure)
      ensures last.flags == old(last).flags
    {
      hide Disciplined, KeptRecords, LastHash, Linked, NoneLost, SafeId, HexDigest, Ready, Guard;
      sinkFailed := true;
      Fail(f);
    }

    /** One record, within the limit: composed, handed over, and kept only if it was acknowledged. */
    method Keep(s: Stage) returns (ok: bool)
      requires Valid() && !terminal && !sinkFailed && writes + 1 <= Limit()
      modifies this`last, this`writes, this`preserved, outside, sink.medium
      ensures if ok then Valid() else Losing(writes)
      ensures ok ==> Marked(outside.log, s) && preserved
      ensures (Did(CreateWorker) in outside.log) == (Did(CreateWorker) in old(outside.log))
      ensures ok ==> last.security == old(last).security && LastSecurity(outside.log) == Some(last.security)
      ensures last.flags == old(last).flags
    {
      hide Disciplined, KeptRecords, LastHash, Linked, NoneLost, SafeId, HexDigest, Ready, Guard, Marked, LastSecurity;
      ok := false;
      writes := writes + 1;
      Compose(s);
      var hash := if frozen.sound then HashOf(outside.h, last) else None;
      if hash.Some? { ok := HandOver(hash.value); }
      if ok { last, preserved := last.(previous := hash), true; }
    }

    method Compose(s: Stage)
      requires writes < 0x1_0000_0000
      modifies this`last
      ensures last.stage == s && last.sequence == writes && last.batch == frozen.batch && last.target == frozen.target
      ensures last.previous == old(last).previous && last.security == old(last).security
          && last.flags == old(last).flags
      ensures last.firstFailure == old(last).firstFailure
    {
      last := last.(stage := s, sequence := writes, batch := frozen.batch, target := frozen.target,
          manifest := frozen.manifest,
                    reviewer := frozen.reviewer, verifier := frozen.verifier, review := frozen.review,
                        verification := frozen.verification);
    }

    /** Hands the record to the sink and compares the acknowledgement. */
    method HandOver(hash: Digest) returns (ok: bool)
      requires outside.h == sink.medium.h && sink.medium.Valid() && Disciplined(outside.log, outside.h)
      requires sink.direct ==> sink.medium.batch == frozen.batch && sink.medium.target == frozen.target && Accepted()
      requires !sinkFailed && writes > 0 && Ready(outside.log, writes - 1, last.previous, outside.h)
      requires last.sequence == writes <= Limit() && last.Whole() && hash == outside.h(last)
          && last.batch == frozen.batch && last.target == frozen.target
      modifies outside, sink.medium
      ensures outside.h == sink.medium.h && sink.medium.Valid() && Disciplined(outside.log, outside.h)
      ensures outside.log == old(outside.log) + [Kept(last, ok)]
      ensures (Did(CreateWorker) in outside.log) == (Did(CreateWorker) in old(outside.log))
      ensures ok ==> Ready(outside.log, writes, Some(hash), outside.h) && Marked(outside.log, last.stage)
      ensures ok ==> LastSecurity(outside.log) == Some(last.security)
      ensures sink.direct && ok ==> !sink.medium.failed && sink.medium.kept == KeptRecords(outside.log)
      ensures sink.direct && sink.medium.Configured() && sink.medium.most == frozen.maxPumps + 32 ==>
          sink.medium.refusals == 0
    {
      hide Disciplined, KeptRecords, LastHash, Linked, NoneLost, SafeId, HexDigest;
      if sink.direct { NextContinues(); }
      ghost var before := outside.log;
      var threw, ack := sink.Preserve(last);
      ok := !threw && ack.fake && ack.ok && ack.sequence == last.sequence && ack.hash == Some(hash);
      RecordKept(before, last, ok, outside.h);
      KeptMore(before, Kept(last, ok));
      outside.log := before + [Kept(last, ok)];
    }

    /** The medium is waiting for exactly the next record. */
    lemma NextContinues()
      requires sink.medium.Valid() && outside.h == sink.medium.h && Accepted() && !sinkFailed
      requires sink.medium.batch == frozen.batch && sink.medium.target == frozen.target
      requires writes > 0 && Ready(outside.log, writes - 1, last.previous, outside.h)
      requires last.sequence == writes <= Limit() && last.Whole() && last.batch == frozen.batch
          && last.target == frozen.target
      ensures sink.medium.most == frozen.maxPumps + 32 ==> sink.medium.Continues(last)
    {
      hide KeptRecords, LastHash, Linked, NoneLost, SafeId, HexDigest;
    }

    // ----- the wrappers, which the controller inside may call in any order

    /** An effect with its record before it; None says that the record was lost. */
    method Recorded(s: Stage, e: Effect) returns (ok: Option<bool>)
      requires Valid() && Guard(e) == Some(s) && e != CreateWorker
      modifies this`last, this`firstFailure, this`offlineReady, this`writes, this`sinkFailed, this`preserved, outside,
          sink.medium
      ensures Valid() && last.flags == old(last).flags
    {
      hide Valid, Marked, LastSecurity;
      var saved := Save(s);
      if !saved { return None; }
      var threw, done := Act(e);
      ok := Some(done);
    }

    method Act(e: Effect) returns (threw: bool, ok: bool)
      requires Valid() && (Guard(e).Some? ==> Marked(outside.log, Guard(e).value))
      requires e == CreateWorker ==> createAttempted && Did(CreateWorker) !in outside.log
      modifies outside
      ensures Valid() && (threw ==> !ok)
    {
      hide Disciplined, LastHash, Linked, SafeId, HexDigest, Guard, Marked;
      EffectDone(outside.log, e, outside.h);
      hide Ready, KeptRecords;
      threw, ok := outside.Do(e);
    }

    method IssueNew() returns (ok: bool)
      requires Valid()
      modifies this`last, this`firstFailure, this`offlineReady, this`writes, this`sinkFailed, this`preserved, outside,
          sink.medium
      ensures Valid() && last.flags == old(last).flags
    {
      hide Valid, Marked, LastSecurity;
      var done := Recorded(IssueIntent, IssueGrant);
      ok := done == Some(true);
      if ok { ok := Save(Issued); }
    }

    method RequestNew() returns (ok: bool)
      requires Valid()
      modifies this`last, this`firstFailure, this`offlineReady, this`writes, this`sinkFailed, this`preserved, outside,
          sink.medium
      ensures Valid() && last.flags == old(last).flags
    {
      hide Valid, Marked, LastSecurity;
      var done := Recorded(RequestIntent, RequestGrant);
      ok := done == Some(true);
      if ok { ok := Save(Requested); }
    }

    method BurnIssued() returns (ok: bool)
      requires Valid()
      modifies this`last, this`firstFailure, this`offlineReady, this`writes, this`sinkFailed, this`preserved, outside,
          sink.medium
      ensures Valid()
    {
      hide Valid, Marked, LastSecurity;
      var done := Recorded(BurnIntent, BurnGrant);
      ok := done == Some(true);
      if done.Some? { Restate(last.(flags := last.flags.(consumed := ok))); }
      if ok { ok := Save(ConsumedStage); }
    }

    method UpdateRequest() returns (ok: bool)
      requires Valid()
      modifies this`last, this`firstFailure, this`offlineReady, this`writes, this`sinkFailed, this`preserved, outside,
          sink.medium
      ensures Valid() && last.flags == old(last).flags
    {
      hide Valid, Marked, LastSecurity;
      var done := Recorded(JournalIntent, UpdateJournal);
      ok := done == Some(true);
      if ok { ok := Save(JournalUpdated); }
    }

    method Inspect() returns (ok: bool)
      requires Valid()
      modifies this`last, this`firstFailure, this`offlineReady, this`writes, this`sinkFailed, this`preserved,
          this`inspections, outside, sink.medium
      ensures Valid()
    {
      hide Valid, Marked, LastSecurity;
      inspections := inspections + 1;
      if inspections > 3 * frozen.maxPumps + 16 {
        Fail(BudgetFailure);
        return false;
      }
      var threw;
      threw, ok := outside.Ask();
      ok := ok && !sinkFailed;
    }

    method InspectTarget() returns (ok: bool)
      requires Valid()
      modifies this`last, this`firstFailure, this`offlineReady, this`writes, this`sinkFailed, this`preserved,
          this`measurements, outside, sink.medium
      ensures Valid()
    {
      hide Valid, Marked, LastSecurity;
      measurements := measurements + 1;
      var threw;
      threw, ok := outside.Ask();
      if measurements > 4 || !ok {
        Fail(MeasurementFailure);
        ok := false;
      }
    }

    method Approve() returns (ok: bool)
      requires Valid()
      modifies this`last, this`firstFailure, this`offlineReady, this`writes, this`sinkFailed, this`preserved, outside,
          sink.medium
      ensures Valid()
    {
      hide Valid, Marked, LastSecurity;
      var threw;
      threw, ok := outside.Ask();
      if !ok { return; }
      Restate(last.(flags := last.flags.(approved := true)));
      ok := Save(Approval);
    }

    /** Reads the custodian's clock, within its budget; whether it was in time. */
    method Timely() returns (ok: bool)
      requires Valid()
      modifies this`clocks, this`last, this`firstFailure, this`offlineReady
      ensures Valid()
    {
      hide Valid, Marked, LastSecurity;
      clocks := clocks + 1;
      if clocks > 4 * frozen.maxPumps + 16 {
        Fail(BudgetFailure);
      } else {
        var utc: U64, mono: U64 := *, *;
        Restate(last.(utc := utc, mono := mono));
      }
      var threw;
      threw, ok := outside.Ask();
      if !ok { Fail(DeadlineFailure); }
    }

    /** Creates and resumes the worker: at most once ever, each after its record and a
        timely clock, with the identity and its acknowledgement recorded in between. */
    method StartSuspended() returns (resumed: bool)
      requires Valid()
      modifies this`last, this`firstFailure, this`offlineReady, this`writes, this`sinkFailed, this`preserved,
          this`clocks, this`createAttempted, this`measurements, outside, sink.medium
      ensures Valid()
    {
      hide Valid, Marked, LastSecurity;
      resumed := false;
      if createAttempted || !last.flags.custodyAccepted || !last.flags.consumed { return; }
      var inspected := InspectTarget();
      if !inspected { return; }
      var created := CreateOnce();
      if !created { return; }
      var checked := Identify();
      if !checked { return; }
      resumed := ResumeOnce();
    }

    method CreateOnce() returns (created: bool)
      requires Valid() && !createAttempted
      modifies this`last, this`firstFailure, this`offlineReady, this`writes, this`sinkFailed, this`preserved,
          this`clocks, this`createAttempted, outside, sink.medium
      ensures Valid()
    {
      hide Disciplined, KeptRecords, LastHash, Linked, NoneLost, SafeId, HexDigest, Ready, Accepted;
      createAttempted := true;
      created := Save(CreateAttempt);
      if !created { return; }
      created := Timely();
      if !created { return; }
      var threw;
      threw, created := Act(CreateWorker);
      if !threw { last := last.(flags := last.flags.(created := created)); }
    }

    /** Token, image, dependencies and handles, with their records. */
    method Identify() returns (ok: bool)
      requires Valid()
      modifies this`last, this`firstFailure, this`offlineReady, this`writes, this`sinkFailed, this`preserved,
          this`clocks, outside, sink.medium
      ensures Valid()
    {
      hide Valid, Marked, LastSecurity;
      var threw;
      ok := Timely();
      if ok { threw, ok := outside.Ask(); }
      if !ok { return; }
      var pid: U32, creation: U64, process: Option<Digest> := *, *, *;
      Restate(last.(pid := pid, creationTime := creation, process := process));
      ok := Save(ProcessIdentity);
      if ok { ok := Timely(); }
      if ok { threw, ok := outside.Ask(); }
      if ok { ok := Timely(); }
      if ok { threw, ok := outside.Ask(); }
      if ok { ok := Timely(); }
      if ok { threw, ok := outside.Ask(); }
      if !ok { return; }
      Restate(last.(flags := last.flags.(custodyAcknowledged := true)));
      ok := Save(CustodyAcknowledged);
    }

    method ResumeOnce() returns (ok: bool)
      requires Valid()
      modifies this`last, this`firstFailure, this`offlineReady, this`writes, this`sinkFailed, this`preserved,
          this`clocks, outside, sink.medium
      ensures Valid()
    {
      hide Valid, Marked, LastSecurity;
      ok := Save(ResumeAttempt);
      if !ok { return; }
      ok := Timely();
      if !ok { return; }
      var threw;
      threw, ok := Act(ResumeWorker);
      if threw { return; }
      Restate(last.(flags := last.flags.(resumed := ok)));
      var saved := Save(ResumedStage);
      ok := ok && saved;
    }

    method Observe() returns (ok: bool)
      requires Valid()
      modifies this`last, this`firstFailure, this`offlineReady, this`writes, this`sinkFailed, this`preserved,
          this`observations, this`exitObserved, outside, sink.medium
      ensures Valid()
    {
      hide Valid, Marked, LastSecurity;
      observations := observations + 1;
      if observations > 2 * frozen.maxPumps + 16 {
        Fail(BudgetFailure);
        return false;
      }
      var threw;
      threw, ok := outside.Ask();
      var exited: bool := *;
      if ok && exited { exitObserved := true; }
    }

    method Next() returns (ok: bool)
      requires Valid()
      modifies this`last, this`firstFailure, this`offlineReady, this`writes, this`sinkFailed, this`preserved,
          this`nexts, outside, sink.medium
      ensures Valid()
    {
      hide Valid, Marked, LastSecurity;
      nexts := nexts + 1;
      if nexts > frozen.maxPumps {
        Fail(BudgetFailure);
        return false;
      }
      var threw;
      threw, ok := outside.Ask();
    }

    /** Sends one of at most three frames. A stop is sent even when its record is lost; no
        admission is sent without the custodian's acknowledgement. */
    method Send(admission: bool, stop: bool) returns (ok: bool)
      requires Valid()
      modifies this`last, this`firstFailure, this`offlineReady, this`writes, this`sinkFailed, this`preserved,
          this`sends, outside, sink.medium
      ensures Valid()
      ensures old(sends) >= 3 || (admission && (old(sinkFailed) || !old(last).flags.custodyAcknowledged)) ==>
        !ok && outside.log == old(outside.log)
    {
      hide Disciplined, KeptRecords, LastHash, Linked, NoneLost, SafeId, HexDigest, Ready, Accepted;
      sends := sends + 1;
      if sends > 3 || (admission && (sinkFailed || !last.flags.custodyAcknowledged)) { return false; }
      var saved := Save(Ipc);
      if !saved && !stop { return false; }
      var threw;
      threw, ok := Act(SendFrame(stop));
    }

    /** Lets the custodian close what it owns after an observed exit, whether or not that
        can be recorded. */
    method CloseObservedExit() returns (ok: bool)
      requires Valid()
      modifies this`last, this`firstFailure, this`offlineReady, this`writes, this`sinkFailed, this`preserved, outside,
          sink.medium
      ensures Valid()
    {
      hide Valid, Marked, LastSecurity;
      if !exitObserved { return false; }
      Restate(last.(flags := last.flags.(exited := true)));
      var saved := Save(ExitObserved);
      var threw;
      threw, ok := outside.Ask();
      if threw { return; }
      Restate(last.(flags := last.flags.(handlesClosed := ok)));
      saved := Save(HandlesSettled);
    }

    method CloseOwnedIo() returns (ok: bool)
      requires Valid()
      modifies this`pinsCloseAttempted
      ensures Valid()
    {
      hide Valid, Marked, LastSecurity;
      var threw, io := outside.Ask();
      if threw || (createAttempted && (!exitObserved || !last.flags.handlesClosed))
          || pinsCloseAttempted { return false; }
      pinsCloseAttempted := true;
      threw, ok := outside.Ask();
      ok := ok && io;
    }

    method Handoff()
      requires Valid()
      modifies this`last, this`firstFailure, this`offlineReady, this`writes, this`sinkFailed, this`preserved, outside,
          sink.medium
      ensures Valid()
    {
      hide Valid, Marked, LastSecurity;
      Fail(CustodyFailure);
      Restate(last.(flags := last.flags.(recoveryRequired := true)));
    }

    /** The controller inside: any calls, in any order. It never throws. */
    method Inside() returns (running: bool)
      requires Valid() && !terminal
      modifies Repr()
      ensures Valid() && Steady()
    {
      hide Valid, Marked, LastSecurity;
      var steps: int := *;
      for i := 0 to if steps < 0 then 0 else steps
        invariant Valid() && Steady()
      {
        var choice: int := *;
        if choice < 6 { Early(choice); } else { Late(choice); }
      }
      running := *;
    }

    /** What the controller inside cannot touch. */
    twostate predicate Steady()
      reads `terminal, `pumps, `attempted, `lost
    {
      terminal == old(terminal) && pumps == old(pumps) && attempted == old(attempted) && lost == old(lost)
    }

    method Early(choice: int)
      requires Valid()
      modifies this`last, this`firstFailure, this`offlineReady, this`writes, this`sinkFailed, this`preserved,
          this`inspections,
        this`measurements, outside, sink.medium
      ensures Valid()
    {
      hide Valid, Marked, LastSecurity;
      var ok;
      if choice == 0 {
        ok := IssueNew();
      } else if choice == 1 {
        ok := RequestNew();
      } else if choice == 2 {
        ok := BurnIssued();
      } else if choice == 3 {
        ok := UpdateRequest();
      } else if choice == 4 {
        ok := Inspect();
      } else {
        ok := InspectTarget();
      }
    }

    method Late(choice: int)
      requires Valid()
      modifies this`last, this`firstFailure, this`offlineReady, this`writes, this`sinkFailed, this`preserved,
          this`clocks,
        this`createAttempted, this`measurements, this`observations, this`exitObserved, this`nexts, this`sends,
            this`pinsCloseAttempted,
        outside, sink.medium
      ensures Valid()
    {
      hide Valid, Marked, LastSecurity;
      var ok;
      if choice == 6 {
        ok := Approve();
      } else if choice == 7 {
        ok := Timely();
      } else if choice == 8 {
        ok := StartSuspended();
      } else if choice == 9 {
        ok := Observe();
      } else if choice == 10 {
        ok := Next();
      } else if choice == 11 {
        var admission, stop := *, *;
        ok := Send(admission, stop);
      } else if choice == 12 {
        ok := CloseObservedExit();
      } else if choice == 13 {
        ok := CloseOwnedIo();
      } else {
        Handoff();
      }
    }

    /** Takes over what the controller measured. */
    method Capture()
      requires Valid()
      modifies this`last
      ensures Valid() && last.previous == old(last).previous && last.security == old(last).security
      ensures last.flags == old(last).flags.(creationUnknown := last.flags.creationUnknown,
          deadlineExceeded := last.flags.deadlineExceeded,
                                             ipcComplete := last.flags.ipcComplete,
                                                 recoveryRequired := last.flags.recoveryRequired)
    {
      var abi, native, samples, count, peak, launch, stopReason := *, *, *, *, *, *, *;
      var unknown, late, complete, handoff: bool := *, *, *, *;
      last := last.(abi := abi, native := native, samples := samples, sampleCount := count, peak := peak,
                    launch := launch,
                    firstStop := stopReason,
                    flags := last.flags.(creationUnknown := unknown, deadlineExceeded := late, ipcComplete := complete,
                                         recoveryRequired := last.flags.recoveryRequired || handoff));
    }

    /** Closes the run: a last record with the verdict, and nothing after it. */
    method Finish()
      requires Valid()
      modifies Repr()
      ensures Valid() && terminal && pumps == old(pumps) && attempted == old(attempted) && lost == old(lost)
      ensures !old(terminal) && last.security == Passed ==> Finished()
      ensures old(terminal) ==> unchanged(this) && unchanged(outside)
    {
      hide Valid, Marked, LastSecurity;
      if terminal { return; }
      Capture();
      if last.flags.deadlineExceeded { Fail(DeadlineFailure); }
      var verdict: EvidenceRecords.Verdict := *;
      Restate(last.(security := if firstFailure == NoFailure then verdict else UnknownVerdict, stability := NotRunYet));
      SaveFinal();
      terminal := true;
    }

    /** The last records; a verdict that could not be saved is unknown. */
    method SaveFinal()
      requires Valid() && !terminal
      modifies Repr()
      ensures Valid() && !terminal && pumps == old(pumps) && attempted == old(attempted) && lost == old(lost)
      ensures last.security == Passed ==> Finished()
    {
      hide Valid, Marked, LastSecurity;
      var saved: bool;
      if last.flags.recoveryRequired { saved := Save(RecoveryRequired); }
      saved := Save(Final);
      if !saved { Restate(last.(security := UnknownVerdict)); }
    }

    /** The final record, with a PASS in it, is the last thing that was preserved, and so
        was every record before it. */
    ghost predicate Finished()
      reads this, outside
    {
      Marked(outside.log, Final) && LastSecurity(outside.log) == Some(Passed) && !sinkFailed
    }

    method ControllerLost()
      requires Valid()
      modifies Repr()
      ensures Valid() && pumps == old(pumps) && attempted == old(attempted) && (old(terminal) ==> terminal)
      ensures terminal || old(lost)
      ensures !old(terminal) && terminal && last.security == Passed ==> Finished()
      ensures old(terminal) ==> unchanged(this) && unchanged(outside)
    {
      hide Valid, Marked, LastSecurity;
      if terminal || lost { return; }
      lost := true;
      Fail(ControllerLoss);
      Restate(last.(flags := last.flags.(recoveryRequired := true)));
      Finish();
    }

    /** The start: evidence, measurement and custody before the controller inside is let
        loose. */
    method Begin() returns (running: bool)
      requires Valid()
      modifies Repr()
      ensures Valid() && attempted && pumps == old(pumps) && (old(terminal) ==> terminal) && lost == old(lost)
      ensures old(attempted) ==> !running && unchanged(this) && unchanged(outside)
      ensures !running && !old(attempted) ==> terminal
      ensures running ==> !terminal
      ensures !old(attempted) && !old(terminal) && terminal && last.security == Passed ==> Finished()
    {
      hide Valid, Marked, LastSecurity;
      running := false;
      if attempted { return; }
      attempted := true;
      if terminal { return; }
      var failure := Open();
      if failure.Some? {
        if failure.value != NoFailure { Fail(failure.value); }
        Finish();
        return;
      }
      offlineReady := true;
      running := Inside();
      Capture();
      if !running { Finish(); }
    }

    /** What comes before; Some says that it went wrong, and as what. */
    method Open() returns (failure: Option<Failure>)
      requires Valid() && !terminal
      modifies this`last, this`firstFailure, this`offlineReady, this`writes, this`sinkFailed, this`preserved, outside,
          sink.medium
      ensures Valid()
    {
      hide Valid, Marked, LastSecurity;
      if !frozen.sound { return Some(TargetFailure); }
      var ok := Save(ControllerStarted);
      if !ok { return Some(NoFailure); }
      var threw;
      threw, ok := outside.Ask();
      if threw { return Some(CustodyFailure); }
      if ok { ok := Save(MeasuredStage); }
      if !ok { return Some(MeasurementFailure); }
      ok := Save(CreateIntent);
      if ok { threw, ok := Act(AcceptCustody); }
      if !ok { return Some(CustodyFailure); }
      Restate(last.(flags := last.flags.(custodyAccepted := true)));
      ok := Save(CustodyAccepted);
      failure := if ok then None else Some(NoFailure);
    }

    /** One turn of the controller inside, and a record of it. */
    method Pump() returns (running: bool)
      requires Valid()
      modifies Repr()
      ensures Valid() && attempted == old(attempted) && (old(terminal) ==> terminal) && pumps >= old(pumps)
      ensures running ==> !terminal && old(pumps) < pumps <= frozen.maxPumps
      ensures !running && old(attempted) && !old(lost) ==> terminal
      ensures !old(lost) && running ==> !lost
      ensures !old(terminal) && terminal && last.security == Passed ==> Finished()
      ensures old(terminal) ==> !running && unchanged(this) && unchanged(outside)
    {
      hide Valid, Marked, LastSecurity;
      running := false;
      if !attempted || terminal || lost { return; }
      pumps := pumps + 1;
      if pumps > frozen.maxPumps {
        Fail(BudgetFailure);
        ControllerLost();
        return;
      }
      running := Inside();
      Capture();
      if running {
        var saved := Save(Ipc);
        if !saved {
          var again := Inside();
          Finish();
          return false;
        }
      } else {
        Finish();
      }
    }
  }

  /** The controller process: zero only for a run whose last preserved record is the final
      one, with a PASS in it. Whatever happened, every effect but a stop came right after
      its own preserved record, nothing followed a lost one, and what was preserved is one
      chain that the medium's own checks never refused. */
  method ControllerProcess(c: Composition) returns (code: int)
    requires c.Valid() && !c.attempted && !c.terminal && !c.lost && c.pumps == 0
    modifies c.Repr()
    ensures c.Valid() && code in {0, 10}
    ensures code == 0 ==> c.Finished()
    ensures var log := c.outside.log;
            && (forall i | 0 <= i < |log| && log[i].Did? && Guard(log[i].effect).Some? ::
                  Marked(log[..i], Guard(log[i].effect).value) && NoneLost(log[..i]))
            && (forall i, j | 0 <= i < j < |log| && log[i].Kept? && !log[i].ok :: log[j] == Did(SendFrame(true)))
            && Linked(KeptRecords(log), c.outside.h)
    ensures c.sink.direct && c.sink.medium.Configured() && c.sink.medium.most == c.frozen.maxPumps + 32 ==>
        c.sink.medium.refusals == 0
  {
    hide Disciplined, KeptRecords, LastHash, Linked, NoneLost, SafeId, HexDigest, Ready, Guard, Marked;
    code := Drive(c);
    ghost var log, h := c.outside.log, c.outside.h;
    forall i | 0 <= i < |log| && log[i].Did? && Guard(log[i].effect).Some?
      ensures Marked(log[..i], Guard(log[i].effect).value) && NoneLost(log[..i])
    {
      WriteAhead(log, h, i);
    }
    forall i, j | 0 <= i < j < |log| && log[i].Kept? && !log[i].ok ensures log[j] == Did(SendFrame(true)) {
      NothingAfterLoss(log, h, i, j);
    }
    ChainHolds(log, h);
  }

  method Drive(c: Composition) returns (code: int)
    requires c.Valid() && !c.attempted && !c.terminal && !c.lost && c.pumps == 0
    modifies c.Repr()
    ensures c.Valid() && code in {0, 10} && (code == 0 ==> c.Finished())
  {
    hide Disciplined, KeptRecords, LastHash, Linked, NoneLost, SafeId, HexDigest, Ready, Guard, Marked,
        Composition.Accepted;
    var running := c.Begin();
    if !running { return 10; }
    while running
      invariant c.Valid() && c.attempted
      invariant running ==> !c.terminal && !c.lost
      invariant !running ==> c.terminal
      invariant c.terminal && c.last.security == Passed ==> c.Finished()
      invariant running ==> c.pumps <= c.frozen.maxPumps
      decreases running, c.frozen.maxPumps - c.pumps
    {
      running := c.Pump();
    }
    code := if c.terminal && c.preserved && c.last.security == Passed then 0 else 10;
  }
}
